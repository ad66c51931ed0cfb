/** The extension's configuration, the browser rules it asks for, and what the controller says
    about an installed rule. */
module Controller {
  import opened Text
  import opened Hosts
  import opened Dnr
  import SubscriptionCompiler

  const OVERRIDE_ID := 1_000_000_000
  const MAX_RULES := 2_000
  const MAX_SUBSCRIPTION_NETWORK := 29_800
  const MAX_SITES := 200

  type Cosmetic = SubscriptionCompiler.Cosmetic

  datatype BrowserRule = BrowserRule(id: nat, rule: Rule)

  datatype Compilation = Compilation(network: seq<BrowserRule>, cosmetics: seq<Cosmetic>)

  datatype Subscriptions = Subscriptions(titles: seq<string>, compiled: Compilation, appliedAt: string)

  datatype Config = Config(
    enabled: bool,
    disabledSites: seq<string>,
    source: string,
    text: string,
    updatedAt: Option<string>,
    compiled: Compilation,
    subscriptions: Option<Subscriptions>)

  const EMPTY_CONFIG := Config(true, [], "No list imported", "", None, Compilation([], []), None)

  function SubscriptionRules(c: Config): seq<BrowserRule> {
    if c.subscriptions.Some? then c.subscriptions.value.compiled.network else []
  }

  predicate RankedRule(r: Rule) { r.priority == if r.action == Block then 1 else 2 }

  /** The part of `validateCompilation` the controller's rules rely on, for a local list. */
  predicate ValidLocal(compiled: Compilation) {
    && |compiled.network| + |compiled.cosmetics| <= MAX_RULES
    && (forall i | 0 <= i < |compiled.network| ::
          compiled.network[i].rule.action != AllowAllRequests && RankedRule(compiled.network[i].rule))
  }

  /** The same for subscriptions. */
  predicate ValidSubscriptions(s: Subscriptions) {
    && |s.compiled.network| <= MAX_SUBSCRIPTION_NETWORK
    && (forall i | 0 <= i < |s.compiled.network| :: RankedRule(s.compiled.network[i].rule))
  }

  predicate ValidSites(sites: seq<string>) {
    |sites| <= MAX_SITES && forall i | 0 <= i < |sites| :: IsDomain(sites[i])
  }

  /** `validateConfig`. */
  predicate ValidConfig(c: Config) {
    ValidSites(c.disabledSites) && ValidLocal(c.compiled)
    && (c.subscriptions.Some? ==> ValidSubscriptions(c.subscriptions.value))
  }

  // The rules a configuration asks for

  function LocalPriority(r: Rule): nat { if r.action == Block then 3 else 4 }

  function Override(domain: string): Rule {
    Rule(100, AllowAllRequests, Condition(None, {domain}, [MainFrame], None, {}, {}, false))
  }

  function FromSubscription(rules: seq<BrowserRule>, i: nat): BrowserRule
    requires i < |rules|
  {
    BrowserRule(i + 1, rules[i].rule)
  }

  function FromLocal(rules: seq<BrowserRule>, before: nat, i: nat): BrowserRule
    requires i < |rules|
  {
    BrowserRule(before + i + 1, rules[i].rule.(priority := LocalPriority(rules[i].rule)))
  }

  function FromSite(sites: seq<string>, i: nat): BrowserRule
    requires i < |sites|
  {
    BrowserRule(OVERRIDE_ID + i, Override(sites[i]))
  }

  function MergedSize(c: Config): nat { |SubscriptionRules(c)| + |c.compiled.network| + |c.disabledSites| }

  /** The rule at a place of the merged array: subscriptions, then the local list, then sites. */
  function MergedAt(c: Config, k: nat): BrowserRule
    requires k < MergedSize(c)
  {
    var subs, local := SubscriptionRules(c), c.compiled.network;
    if k < |subs| then FromSubscription(subs, k)
    else if k < |subs| + |local| then FromLocal(local, |subs|, k - |subs|)
    else FromSite(c.disabledSites, k - |subs| - |local|)
  }

  /** `desiredRules`, by the place of each rule in the merged array. */
  function DesiredRules(c: Config): seq<BrowserRule> {
    if !c.enabled then [] else seq(MergedSize(c), k requires 0 <= k < MergedSize(c) => MergedAt(c, k))
  }

  lemma MergedPrefix(c: Config, k: nat)
    requires c.enabled && k < MergedSize(c)
    ensures |DesiredRules(c)| == MergedSize(c) && DesiredRules(c)[..k + 1] == DesiredRules(c)[..k] + [MergedAt(c, k)]
  {
  }

  /** The loops of `desiredRules`: IDs come from the length of the array built so far. */
  method BuildDesiredRules(c: Config) returns (rules: seq<BrowserRule>)
    ensures rules == DesiredRules(c)
  {
    if !c.enabled {
      return [];
    }
    var subs, local, sites := SubscriptionRules(c), c.compiled.network, c.disabledSites;
    rules := [];
    for i := 0 to |subs|
      invariant rules == DesiredRules(c)[..i]
    {
      MergedPrefix(c, i);
      rules := rules + [BrowserRule(|rules| + 1, subs[i].rule)];
    }
    for i := 0 to |local|
      invariant rules == DesiredRules(c)[..|subs| + i]
    {
      MergedPrefix(c, |subs| + i);
      var priority := if local[i].rule.action == Block then 3 else 4;
      rules := rules + [BrowserRule(|rules| + 1, local[i].rule.(priority := priority))];
    }
    for i := 0 to |sites|
      invariant rules == DesiredRules(c)[..|subs| + |local| + i]
    {
      MergedPrefix(c, |subs| + |local| + i);
      rules := rules + [BrowserRule(OVERRIDE_ID + i, Override(sites[i]))];
    }
  }

  // What the controller says about an installed rule

  datatype Origin = SiteException | SubscriptionList | LocalList

  datatype RuleInfo = RuleInfo(action: Action, priority: nat, condition: Condition, origin: Origin)

  /** `describeActivityRule` for a configuration whose rules are installed. */
  function Describe(c: Config, id: int): Option<RuleInfo> {
    if !c.enabled || id < 1 then None
    else if id >= OVERRIDE_ID then
      var index := id - OVERRIDE_ID;
      if index >= |c.disabledSites| then None
      else Some(RuleInfo(AllowAllRequests, 100, Override(c.disabledSites[index]).condition, SiteException))
    else
      var subs, local := SubscriptionRules(c), c.compiled.network;
      if id <= |subs| then
        var r := subs[id - 1].rule;
        Some(RuleInfo(r.action, r.priority, r.condition, SubscriptionList))
      else if id - |subs| - 1 < |local| then
        var r := local[id - |subs| - 1].rule;
        Some(RuleInfo(r.action, LocalPriority(r), r.condition, LocalList))
      else None
  }

  function InfoRule(info: RuleInfo): Rule { Rule(info.priority, info.action, info.condition) }

  lemma MergedIds(c: Config, k: nat)
    requires ValidConfig(c) && k < MergedSize(c)
    ensures var compiled := |SubscriptionRules(c)| + |c.compiled.network|;
            compiled < OVERRIDE_ID && MergedAt(c, k).id == if k < compiled then k + 1 else OVERRIDE_ID + (k - compiled)
  {
  }

  /** IDs are all different, start at 1, and those of the compiled rules never meet those of the
      site overrides. */
  lemma DesiredIds(c: Config, i: nat, j: nat)
    requires ValidConfig(c) && i < j < |DesiredRules(c)|
    ensures 1 <= DesiredRules(c)[i].id < DesiredRules(c)[j].id
    ensures DesiredRules(c)[i].id < OVERRIDE_ID || DesiredRules(c)[i].rule == Override(c.disabledSites[DesiredRules(c)[i].id - OVERRIDE_ID])
  {
    MergedIds(c, i);
    MergedIds(c, j);
  }

  lemma DescribedIsMerged(c: Config, k: nat)
    requires ValidConfig(c) && c.enabled && k < MergedSize(c)
    ensures Describe(c, MergedAt(c, k).id).Some? && InfoRule(Describe(c, MergedAt(c, k).id).value) == MergedAt(c, k).rule
  {
    MergedIds(c, k);
  }

  lemma DescribedPlace(c: Config, id: int) returns (k: nat)
    requires ValidConfig(c) && Describe(c, id).Some?
    ensures c.enabled && k < MergedSize(c) && MergedAt(c, k).id == id
  {
    var compiled := |SubscriptionRules(c)| + |c.compiled.network|;
    k := if id < OVERRIDE_ID then id - 1 else compiled + (id - OVERRIDE_ID);
    MergedIds(c, k);
  }

  /** The description of an ID is exactly that of the wanted rule with that ID, and an ID without
      a description belongs to no wanted rule. */
  lemma DescribeInvertsIds(c: Config, id: int)
    requires ValidConfig(c)
    ensures match Describe(c, id)
            case Some(info) => exists i :: 0 <= i < |DesiredRules(c)| && DesiredRules(c)[i].id == id
                                           && DesiredRules(c)[i].rule == InfoRule(info)
            case None => forall i :: 0 <= i < |DesiredRules(c)| ==> DesiredRules(c)[i].id != id
  {
    var rules := DesiredRules(c);
    if Describe(c, id).Some? {
      var k := DescribedPlace(c, id);
      DescribedIsMerged(c, k);
      assert rules[k] == MergedAt(c, k);
    } else {
      forall i | 0 <= i < |rules| ensures rules[i].id != id {
        DescribedIsMerged(c, i);
        assert rules[i] == MergedAt(c, i);
      }
    }
  }

  /** No other rule has the described ID, so the description is of the active rule. */
  lemma DescribedRuleUnique(c: Config, i: nat, j: nat)
    requires ValidConfig(c) && i < |DesiredRules(c)| && j < |DesiredRules(c)|
    requires DesiredRules(c)[i].id == DesiredRules(c)[j].id
    ensures i == j
  {
    if i < j { DesiredIds(c, i, j); } else if j < i { DesiredIds(c, j, i); }
  }

  // Layers

  ghost function RulesOf(rules: seq<BrowserRule>): set<Rule> { set r | r in rules :: r.rule }

  ghost predicate AnyApplies(rules: seq<BrowserRule>, blocks: bool, q: Request) {
    exists i :: 0 <= i < |rules| && (rules[i].rule.action == Block) == blocks && Applies(rules[i].rule, q)
  }

  ghost predicate SiteOverride(sites: seq<string>, q: Request) {
    exists i :: 0 <= i < |sites| && Applies(Override(sites[i]), q)
  }

  /** The decision layer by layer: site override, local allow, local block, subscription allow,
      subscription block. */
  ghost function Layered(c: Config, q: Request): Verdict {
    if !c.enabled then Unmatched
    else if SiteOverride(c.disabledSites, q) then Allowed
    else if AnyApplies(c.compiled.network, false, q) then Allowed
    else if AnyApplies(c.compiled.network, true, q) then Blocked
    else if AnyApplies(SubscriptionRules(c), false, q) then Allowed
    else if AnyApplies(SubscriptionRules(c), true, q) then Blocked
    else Unmatched
  }

  ghost predicate FromSub(c: Config, r: Rule) {
    exists i :: 0 <= i < |SubscriptionRules(c)| && r == SubscriptionRules(c)[i].rule
  }

  ghost predicate FromLocalList(c: Config, r: Rule) {
    exists i :: 0 <= i < |c.compiled.network| && r == FromLocal(c.compiled.network, 0, i).rule
  }

  ghost predicate FromOverride(c: Config, r: Rule) {
    exists i :: 0 <= i < |c.disabledSites| && r == Override(c.disabledSites[i])
  }

  /** Every place of the merged array belongs to a layer. */
  lemma PlaceLayer(c: Config, k: nat)
    requires k < MergedSize(c)
    ensures var r := MergedAt(c, k).rule; FromSub(c, r) || FromLocalList(c, r) || FromOverride(c, r)
  {
    var subs, local, sites, r := SubscriptionRules(c), c.compiled.network, c.disabledSites, MergedAt(c, k).rule;
    if k < |subs| {
      assert r == subs[k].rule;
    } else if k < |subs| + |local| {
      assert r == FromLocal(local, 0, k - |subs|).rule;
    } else {
      assert r == Override(sites[k - |subs| - |local|]);
    }
  }

  lemma MergedFrom(c: Config, r: Rule)
    requires c.enabled && r in RulesOf(DesiredRules(c))
    ensures FromSub(c, r) || FromLocalList(c, r) || FromOverride(c, r)
  {
    var k :| 0 <= k < |DesiredRules(c)| && DesiredRules(c)[k].rule == r;
    PlaceLayer(c, k);
  }

  lemma PlaceMerged(c: Config, k: nat)
    requires c.enabled && k < MergedSize(c)
    ensures MergedAt(c, k).rule in RulesOf(DesiredRules(c))
  {
    var rules := DesiredRules(c);
    assert rules[k] in rules && rules[k] == MergedAt(c, k);
  }

  lemma MergedRules(c: Config, r: Rule)
    requires c.enabled
    ensures r in RulesOf(DesiredRules(c)) <==> FromSub(c, r) || FromLocalList(c, r) || FromOverride(c, r)
  {
    var subs, local, sites := SubscriptionRules(c), c.compiled.network, c.disabledSites;
    if FromSub(c, r) {
      var i :| 0 <= i < |subs| && r == subs[i].rule;
      PlaceMerged(c, i);
    }
    if FromLocalList(c, r) {
      var i :| 0 <= i < |local| && r == FromLocal(local, 0, i).rule;
      PlaceMerged(c, |subs| + i);
    }
    if FromOverride(c, r) {
      var i :| 0 <= i < |sites| && r == Override(sites[i]);
      PlaceMerged(c, |subs| + |local| + i);
    }
    if r in RulesOf(DesiredRules(c)) { MergedFrom(c, r); }
  }

  /** Every merged rule's priority names its layer. */
  lemma LayerPriority(c: Config, r: Rule)
    requires ValidConfig(c)
    ensures FromSub(c, r) ==> r.priority == if r.action == Block then 1 else 2
    ensures FromLocalList(c, r) ==> r.priority == (if r.action == Block then 3 else 4) && r.action != AllowAllRequests
    ensures FromOverride(c, r) ==> r.priority == 100 && r.action != Block
  {
  }

  /** Something in this layer applies, as a rule of the merged array. */
  lemma LayerApplies(c: Config, q: Request, blocks: bool)
    ensures AnyApplies(c.compiled.network, blocks, q)
            <==> exists r :: FromLocalList(c, r) && (r.action == Block) == blocks && Applies(r, q)
    ensures AnyApplies(SubscriptionRules(c), blocks, q)
            <==> exists r :: FromSub(c, r) && (r.action == Block) == blocks && Applies(r, q)
    ensures SiteOverride(c.disabledSites, q) <==> exists r :: FromOverride(c, r) && Applies(r, q)
  {
    if AnyApplies(c.compiled.network, blocks, q) {
      var i :| 0 <= i < |c.compiled.network| && (c.compiled.network[i].rule.action == Block) == blocks
               && Applies(c.compiled.network[i].rule, q);
      assert FromLocalList(c, FromLocal(c.compiled.network, 0, i).rule);
      assert Applies(FromLocal(c.compiled.network, 0, i).rule, q);
    }
    if AnyApplies(SubscriptionRules(c), blocks, q) {
      var i :| 0 <= i < |SubscriptionRules(c)| && (SubscriptionRules(c)[i].rule.action == Block) == blocks
               && Applies(SubscriptionRules(c)[i].rule, q);
      assert FromSub(c, SubscriptionRules(c)[i].rule);
    }
    if SiteOverride(c.disabledSites, q) {
      var i :| 0 <= i < |c.disabledSites| && Applies(Override(c.disabledSites[i]), q);
      assert FromOverride(c, Override(c.disabledSites[i]));
    }
  }

  ghost predicate At(rules: set<Rule>, q: Request, priority: nat) {
    exists r :: r in rules && Applies(r, q) && r.priority == priority
  }

  /** Each layer occupies one priority of the merged array. */
  lemma LayersAtPriorities(c: Config, q: Request, rules: set<Rule>)
    requires ValidConfig(c) && c.enabled && rules == RulesOf(DesiredRules(c))
    ensures At(rules, q, 1) <==> AnyApplies(SubscriptionRules(c), true, q)
    ensures At(rules, q, 2) <==> AnyApplies(SubscriptionRules(c), false, q)
    ensures At(rules, q, 3) <==> AnyApplies(c.compiled.network, true, q)
    ensures At(rules, q, 4) <==> AnyApplies(c.compiled.network, false, q)
    ensures At(rules, q, 100) <==> SiteOverride(c.disabledSites, q)
  {
    RuleLayers(c);
    SubLayer(c, q, rules, true);
    SubLayer(c, q, rules, false);
    LocalLayer(c, q, rules, true);
    LocalLayer(c, q, rules, false);
    SiteLayer(c, q, rules);
  }

  ghost predicate Merged(c: Config, rules: set<Rule>) {
    && (forall r :: r in rules <==> FromSub(c, r) || FromLocalList(c, r) || FromOverride(c, r))
    && (forall r | FromSub(c, r) :: r.priority == if r.action == Block then 1 else 2)
    && (forall r | FromLocalList(c, r) :: r.priority == if r.action == Block then 3 else 4)
    && (forall r | FromOverride(c, r) :: r.priority == 100 && r.action != Block)
  }

  lemma SubLayer(c: Config, q: Request, rules: set<Rule>, blocks: bool)
    requires Merged(c, rules)
    ensures At(rules, q, if blocks then 1 else 2) <==> AnyApplies(SubscriptionRules(c), blocks, q)
  {
    LayerApplies(c, q, blocks);
  }

  lemma LocalLayer(c: Config, q: Request, rules: set<Rule>, blocks: bool)
    requires Merged(c, rules)
    ensures At(rules, q, if blocks then 3 else 4) <==> AnyApplies(c.compiled.network, blocks, q)
  {
    LayerApplies(c, q, blocks);
  }

  lemma SiteLayer(c: Config, q: Request, rules: set<Rule>)
    requires Merged(c, rules)
    ensures At(rules, q, 100) <==> SiteOverride(c.disabledSites, q)
  {
    LayerApplies(c, q, true);
  }

  lemma RuleLayers(c: Config)
    requires ValidConfig(c) && c.enabled
    ensures Merged(c, RulesOf(DesiredRules(c)))
  {
    forall r ensures r in RulesOf(DesiredRules(c)) <==> FromSub(c, r) || FromLocalList(c, r) || FromOverride(c, r) {
      MergedRules(c, r);
    }
    forall r
      ensures FromSub(c, r) ==> r.priority == if r.action == Block then 1 else 2
      ensures FromLocalList(c, r) ==> r.priority == if r.action == Block then 3 else 4
      ensures FromOverride(c, r) ==> r.priority == 100 && r.action != Block
    {
      LayerPriority(c, r);
    }
  }

  predicate LayerRank(priority: nat) { priority in {1, 2, 3, 4, 100} }

  lemma RanksDecide(rules: set<Rule>, q: Request)
    requires forall r | r in rules :: LayerRank(r.priority) && (r.action == Block <==> r.priority % 2 == 1)
    ensures Decide(rules, q)
            == if At(rules, q, 100) || At(rules, q, 4) then Allowed
               else if At(rules, q, 3) then Blocked
               else if At(rules, q, 2) then Allowed
               else if At(rules, q, 1) then Blocked
               else Unmatched
  {
    TopVerdict(rules, q);
    forall r | r in rules && Applies(r, q) ensures At(rules, q, r.priority) && LayerRank(r.priority) {}
    if At(rules, q, 100) { assert Top(rules, q, 100); }
    else if At(rules, q, 4) { assert Top(rules, q, 4); }
    else if At(rules, q, 3) { assert Top(rules, q, 3); }
    else if At(rules, q, 2) { assert Top(rules, q, 2); }
    else if At(rules, q, 1) { assert Top(rules, q, 1); }
  }

  lemma RankOf(c: Config, r: Rule)
    requires ValidConfig(c) && (FromSub(c, r) || FromLocalList(c, r) || FromOverride(c, r))
    ensures LayerRank(r.priority) && (r.action == Block <==> r.priority % 2 == 1)
  {
    LayerPriority(c, r);
  }

  lemma MergedRanks(c: Config)
    requires ValidConfig(c) && c.enabled
    ensures forall r | r in RulesOf(DesiredRules(c)) ::
              LayerRank(r.priority) && (r.action == Block <==> r.priority % 2 == 1)
  {
    forall r | r in RulesOf(DesiredRules(c)) ensures LayerRank(r.priority) && (r.action == Block <==> r.priority % 2 == 1) {
      MergedFrom(c, r);
      RankOf(c, r);
    }
  }

  /** The highest-priority verdict of the merged array is the layered decision. */
  lemma LayeredPrecedence(c: Config, q: Request)
    requires ValidConfig(c)
    ensures Decide(RulesOf(DesiredRules(c)), q) == Layered(c, q)
  {
    var rules := RulesOf(DesiredRules(c));
    if c.enabled {
      MergedRanks(c);
      LayersAtPriorities(c, q, rules);
      RanksDecide(rules, q);
    } else {
      assert rules == {};
    }
  }

  /** With blocks at odd priorities only, the verdict is read off the highest priority. */
  lemma TopVerdict(rules: set<Rule>, q: Request)
    requires forall r | r in rules :: r.action == Block <==> r.priority % 2 == 1
    ensures forall p | Top(rules, q, p) :: Decide(rules, q) == if p % 2 == 1 then Blocked else Allowed
    ensures (forall r | r in rules :: !Applies(r, q)) ==> Decide(rules, q) == Unmatched
  {
    forall p | Top(rules, q, p) ensures Decide(rules, q) == if p % 2 == 1 then Blocked else Allowed {
      var r :| r in rules && Applies(r, q) && r.priority == p;
      if p % 2 == 1 { assert Wins(r, rules, q); }
      if s :| Wins(s, rules, q) && s.action == Block { assert Beats(s, r); }
    }
  }

  ghost predicate Top(rules: set<Rule>, q: Request, priority: nat) {
    (exists r :: r in rules && Applies(r, q) && r.priority == priority)
    && forall r | r in rules && Applies(r, q) :: r.priority <= priority
  }
}
