/** What each job makes of the configuration, and what the sites that were paused mean for requests. */
module ControllerJobs {
  import opened Text
  import opened Hosts
  import opened Dnr
  import opened Controller
  import opened ControllerSteps
  import opened ControllerSafety
  import opened ControllerOrder
  import Picker

  // Sites

  ghost predicate InOrder(sites: seq<string>) {
    forall i, j | 0 <= i < j < |sites| :: !Less(sites[j], sites[i])
  }

  lemma {:induction false} InsertSorted(sites: seq<string>, site: string)
    requires InOrder(sites)
    ensures InOrder(InsertSite(sites, site)) && multiset(InsertSite(sites, site)) == multiset(sites) + multiset{site}
  {
    if sites == [] {
      assert InsertSite(sites, site) == [site];
    } else if Less(sites[0], site) {
      var rest := InsertSite(sites[1..], site);
      InsertSorted(sites[1..], site);
      assert sites == [sites[0]] + sites[1..];
      HeadFirst(sites, site);
      forall x | x in rest ensures !Less(x, sites[0]) { assert x in multiset(rest); }
    } else {
      assert InsertSite(sites, site) == [site] + sites;
      SmallestFirst(sites, site);
    }
  }

  lemma HeadFirst(sites: seq<string>, site: string)
    requires sites != [] && InOrder(sites) && Less(sites[0], site)
    ensures forall x | x in multiset(sites[1..]) + multiset{site} :: !Less(x, sites[0])
  {
    LessTotal(sites[0], site);
    forall x | x in sites[1..] ensures !Less(x, sites[0]) {
      var i :| 0 <= i < |sites| - 1 && sites[1..][i] == x;
      assert sites[i + 1] == x;
    }
  }

  lemma SmallestFirst(sites: seq<string>, site: string)
    requires sites != [] && InOrder(sites) && !Less(sites[0], site)
    ensures forall x | x in sites :: !Less(x, site)
  {
    forall x | x in sites ensures !Less(x, site) {
      var i :| 0 <= i < |sites| && sites[i] == x;
      LessTotal(sites[0], site);
      LessTotal(sites[0], x);
      if Less(x, site) {
        if sites[0] != x && Less(sites[0], x) { LessTransitive(sites[0], x, site); }
      }
    }
  }

  lemma {:induction false} SortedSites(sites: seq<string>)
    ensures InOrder(SortSites(sites)) && multiset(SortSites(sites)) == multiset(sites)
  {
    if sites != [] {
      SortedSites(sites[1..]);
      InsertSorted(SortSites(sites[1..]), sites[0]);
      assert sites == [sites[0]] + sites[1..];
    }
  }

  lemma {:induction false} RemovedSite(sites: seq<string>, site: string)
    ensures multiset(WithoutSite(sites, site)) == multiset(sites)[site := 0]
  {
    if sites != [] {
      RemovedSite(sites[1..], site);
      assert sites == [sites[0]] + sites[1..];
    }
  }

  /** The sites a site job leaves, as a bag: `host` added once when it is missing, or removed. */
  ghost function SitesAfter(sites: seq<string>, host: string, enabled: bool): multiset<string> {
    if enabled then multiset(sites)[host := 0]
    else if host in sites then multiset(sites)
    else multiset(sites) + multiset{host}
  }

  /** Pausing a site adds it and resuming it removes it; the sites stay sorted and nothing else
      changes.  A host that is no domain, or one site too many, changes nothing. */
  lemma SetSiteMeans(c: Config, host: string, enabled: bool, generation: nat)
    ensures var plan, after := PlanJob(SetSite(host, enabled), c, generation), SitesAfter(c.disabledSites, host, enabled);
            if !IsDomain(host) || |after| > 200 then plan == Finish
            else plan.Commit? && plan.next == c.(disabledSites := plan.next.disabledSites)
                 && multiset(plan.next.disabledSites) == after && InOrder(plan.next.disabledSites)
  {
    var sites := if enabled then WithoutSite(c.disabledSites, host)
                 else if host in c.disabledSites then c.disabledSites else c.disabledSites + [host];
    RemovedSite(c.disabledSites, host);
    SortedSites(sites);
    assert multiset(sites) == SitesAfter(c.disabledSites, host, enabled);
    assert |multiset(sites)| == |sites|;
  }

  // The other jobs

  /** Switching protection on or off, removing subscriptions, and applying a refresh that nothing newer
      overtook change that one field. */
  lemma FieldJobsMean(c: Config, generation: nat, enabled: bool, began: nat, fetched: Subscriptions, begun: nat)
    ensures var plan := PlanJob(SetEnabled(enabled), c, generation);
            plan.Commit? && plan.next.enabled == enabled && plan.next.(enabled := c.enabled) == c
    ensures var plan := PlanJob(RemoveSubscriptions, c, generation);
            plan.Commit? && plan.next.subscriptions == None && plan.next.(subscriptions := c.subscriptions) == c
    ensures var plan := PlanJob(ApplyRefresh(began, fetched, begun), c, generation);
            if began == generation then
              plan.Commit? && plan.next.subscriptions == Some(fetched) && plan.next.(subscriptions := c.subscriptions) == c
            else plan == Finish
  {
  }

  /** The local list after a job: its text and name, what the companion made of it, and when; nothing
      else changed. */
  predicate LocalList(c: Config, next: Config, text: string, source: string, reply: Reply) {
    && next.text == text && next.source == source && next.compiled == reply.compiled && next.updatedAt == Some(reply.now)
    && next.enabled == c.enabled && next.disabledSites == c.disabledSites && next.subscriptions == c.subscriptions
  }

  /** An import saves the given text under the given name with its compilation, if that is valid. */
  lemma ImportMeans(c: Config, text: string, source: string, reply: Option<Reply>)
    ensures var plan := PlanOf(Import(text, source), reply, c);
            if reply.Some? && ValidLocal(reply.value.compiled) then
              plan.Commit? && LocalList(c, plan.next, text, source, reply.value)
            else plan == Finish
  {
  }

  /** The site is paused, alone or under a paused domain. */
  ghost predicate Paused(sites: seq<string>, host: string) {
    exists site :: site in sites && MatchesDomain(host, site)
  }

  ghost predicate HasRule(compiled: Compilation, host: string, selector: string) {
    exists item :: item in compiled.cosmetics && host in item.domains && item.selector == selector
  }

  ghost predicate HidesAlready(compiled: Compilation, host: string, selector: string) {
    exists item :: item in compiled.cosmetics && item.selector == selector
                   && (item.domains == {} || exists d :: d in item.domains && MatchesDomain(host, d))
  }

  ghost predicate MayPick(c: Config, host: string, selector: string, token: string) {
    && Picker.ValidPick(host, selector, token) && c.enabled && !Paused(c.disabledSites, host)
    && !Contains(c.text, PickerBlock(host, selector, token)) && !HidesAlready(c.compiled, host, selector)
  }

  /** A pick is added at the end of the text, where protection is on and the element is not hidden yet,
      and only if the companion's answer hides it. */
  lemma AddPickerMeans(c: Config, host: string, selector: string, token: string, reply: Option<Reply>)
    ensures var plan := PlanOf(AddPicker(host, selector, token), reply, c);
            if MayPick(c, host, selector, token) && reply.Some? && ValidLocal(reply.value.compiled)
               && HasRule(reply.value.compiled, host, selector) then
              plan.Commit?
              && LocalList(c, plan.next, c.text + PickerBlock(host, selector, token),
                           if c.updatedAt.Some? && c.updatedAt.value != "" then c.source else "Local filters", reply.value)
            else plan == Finish
  {
    assert Paused(c.disabledSites, host) == DisabledBy(host, c.disabledSites);
    assert HidesAlready(c.compiled, host, selector) == AlreadyHidden(c, host, selector);
  }

  /** Taking a pick back removes the first copy of its block from the text. */
  lemma RemovePickerMeans(c: Config, host: string, selector: string, token: string, reply: Option<Reply>)
    ensures var plan, block := PlanOf(RemovePicker(host, selector, token), reply, c), PickerBlock(host, selector, token);
            if Picker.ValidPick(host, selector, token) && Contains(c.text, block) && reply.Some?
               && ValidLocal(reply.value.compiled) then
              plan.Commit? && LocalList(c, plan.next, Picker.RemoveFirst(c.text, block), c.source, reply.value)
            else plan == Finish
  {
  }

  /** A pick taken back at once leaves the text exactly as it was unless the text ended with the block
      short of its last newline. */
  lemma PickThenUnpick(c: Config, host: string, selector: string, token: string, added: Option<Reply>, removed: Option<Reply>)
    requires PlanOf(AddPicker(host, selector, token), added, c).Commit?
    requires removed.Some? && ValidLocal(removed.value.compiled)
    ensures var picked := Applied(AddPicker(host, selector, token), added, c);
            var plan, block := PlanOf(RemovePicker(host, selector, token), removed, picked), PickerBlock(host, selector, token);
            plan.Commit? && (plan.next.text == c.text <==> !EndsWith(c.text, Picker.Unterminated(block)))
  {
    var picked, block := Applied(AddPicker(host, selector, token), added, c), PickerBlock(host, selector, token);
    AddPickerMeans(c, host, selector, token, added);
    RemovePickerMeans(picked, host, selector, token, removed);
    Picker.PickIsLine(host, selector, token);
    Picker.UndoRestores(c.text, token, Picker.PickerRule(host, selector));
    BlockAtEnd(c.text, block);
  }

  lemma BlockAtEnd(text: string, block: string)
    ensures Contains(text + block, block)
  {
    FindLeast(text + block, block);
    assert (text + block)[|text|..] == block;
    assert OccursAt(text + block, block, |text|);
  }

  // Which sites are paused after a run

  /** The job is about pausing or resuming this site. */
  predicate AboutSite(job: Job, host: string) { job.SetSite? && job.host == host }

  /** The last saved job about the site, if any, paused it; if there is none, it was paused before. */
  ghost predicate LastPaused(base: Config, log: seq<Entry>, host: string) {
    if log == [] then host in base.disabledSites
    else if AboutSite(log[|log| - 1].ticket.job, host) then !log[|log| - 1].ticket.job.enabled
    else LastPaused(base, log[..|log| - 1], host)
  }

  lemma InBag(sites: seq<string>, host: string)
    ensures host in sites <==> host in multiset(sites)
  {
  }

  lemma SiteJobApplied(job: Job, reply: Option<Reply>, c: Config, host: string)
    requires job.SetSite? && PlanOf(job, reply, c).Commit?
    ensures host in Applied(job, reply, c).disabledSites <==> if job.host == host then !job.enabled else host in c.disabledSites
  {
    SetSiteMeans(c, job.host, job.enabled, OwnGeneration(job));
    InBag(Applied(job, reply, c).disabledSites, host);
    InBag(c.disabledSites, host);
  }

  lemma OtherJobApplied(job: Job, reply: Option<Reply>, c: Config)
    requires !job.SetSite?
    ensures Applied(job, reply, c).disabledSites == c.disabledSites
  {
  }

  lemma {:induction false} ReplayedSites(base: Config, log: seq<Entry>, host: string)
    requires LogCommits(base, log)
    ensures host in Replay(base, log).disabledSites <==> LastPaused(base, log, host)
  {
    if log != [] {
      var front, last := log[..|log| - 1], log[|log| - 1];
      FrontCommits(base, log);
      ReplayedSites(base, front, host);
      var c := Replay(base, front);
      if last.ticket.job.SetSite? {
        SiteJobApplied(last.ticket.job, last.reply, c, host);
      } else {
        OtherJobApplied(last.ticket.job, last.reply, c);
      }
    }
  }

  lemma FrontCommits(base: Config, log: seq<Entry>)
    requires log != [] && LogCommits(base, log)
    ensures var front, last := log[..|log| - 1], log[|log| - 1];
            LogCommits(base, front) && PlanOf(last.ticket.job, last.reply, Replay(base, front)).Commit?
  {
    var front := log[..|log| - 1];
    forall i | 0 <= i < |front| ensures PlanOf(front[i].ticket.job, front[i].reply, Replay(base, front[..i])).Commit? {
      assert front[..i] == log[..i];
    }
  }

  /** Over every run a site is paused in the committed configuration exactly when the last saved job
      about it paused it, or there was none and it was paused at first. */
  lemma SitesFollowJobs(env: Env, s: State, events: seq<Event>, host: string)
    requires Fresh(env, s)
    ensures var t := Run(env, s, events);
            host in Effective(t.outside.storage).disabledSites
            <==> LastPaused(Effective(s.outside.storage), t.log, host)
  {
    RunReplays(env, s, events);
    ReplayedSites(Effective(s.outside.storage), Run(env, s, events).log, host);
  }

  // What a paused site means for requests

  /** A page of the site or one of its subdomains. */
  predicate PageOf(hit: Hit, site: string) { hit.kind == MainFrame && MatchesDomain(hit.url.host, site) }

  /** The request is a page of the site, or happens in one. */
  ghost predicate OnSite(q: Request, site: string) {
    PageOf(q.hit, site) || exists f :: f in q.frames && PageOf(f, site)
  }

  lemma OverrideMeets(site: string, hit: Hit)
    ensures Meets(Override(site).condition, hit) <==> PageOf(hit, site)
  {
    var c := Override(site).condition;
    assert c.resourceTypes == [MainFrame] && c.requestDomains == {site};
    assert InAny(hit.url.host, {site}) <==> MatchesDomain(hit.url.host, site) by { assert site in {site}; }
    assert hit.kind in [MainFrame] <==> hit.kind == MainFrame;
  }

  /** A site override applies exactly to the requests on the site. */
  lemma OverrideMeans(site: string, q: Request)
    ensures Applies(Override(site), q) <==> OnSite(q, site)
  {
    OverrideMeets(site, q.hit);
    forall f | f in q.frames ensures Meets(Override(site).condition, f) <==> PageOf(f, site) { OverrideMeets(site, f); }
  }

  lemma PausedLetsThrough(c: Config, site: string, q: Request)
    requires ValidConfig(c) && site in c.disabledSites && OnSite(q, site)
    ensures Decide(RulesOf(DesiredRules(c)), q) != Blocked
  {
    LayeredPrecedence(c, q);
    OverrideMeans(site, q);
    var i :| 0 <= i < |c.disabledSites| && c.disabledSites[i] == site;
    assert Applies(Override(c.disabledSites[i]), q);
  }

  /** Entry `i` paused the site, and no later one is about it. */
  ghost predicate PausedLast(log: seq<Entry>, i: int, host: string) {
    && 0 <= i < |log| && log[i].ticket.job == SetSite(host, false)
    && forall j | i < j < |log| :: !AboutSite(log[j].ticket.job, host)
  }

  lemma {:induction false} PausedStays(base: Config, log: seq<Entry>, i: int, host: string)
    requires PausedLast(log, i, host)
    ensures LastPaused(base, log, host)
    decreases |log|
  {
    if i < |log| - 1 { PausedStays(base, log[..|log| - 1], i, host); }
  }

  /** A caller told that a site is paused can rely on it: over every run, while no later job about the
      site was saved and the worker is ready and idle, the installed rules block no request on it. */
  lemma ToldPaused(env: Env, s: State, events: seq<Event>, ticket: Ticket, host: string, q: Request)
    requires Fresh(env, s) && env.desired == DesiredRules
    requires var t := Run(env, s, events);
             && ticket in t.told && ticket.job == SetSite(host, false)
             && (forall i, j | 0 <= i < j < |t.log| && t.log[i].ticket == ticket :: !AboutSite(t.log[j].ticket.job, host))
             && t.worker.Some? && t.worker.value.phase.Idle? && !t.worker.value.recovery
    requires OnSite(q, host)
    ensures Decide(RulesOf(Run(env, s, events).outside.active), q) != Blocked
  {
    var t := Run(env, s, events);
    NoLostUpdates(env, s, events);
    var k :| 0 <= k < |t.told| && t.told[k] == ticket;
    assert Logged(t.log, t.told[k]);
    var i :| 0 <= i < |t.log| && t.log[i].ticket == ticket;
    PausedStays(Effective(s.outside.storage), t.log, i, host);
    SitesFollowJobs(env, s, events, host);
    CrashSafeCommit(env, s, events);
    RunValid(env, s, events);
    PausedLetsThrough(t.worker.value.config, host, q);
  }
}
