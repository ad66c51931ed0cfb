/** The extension's own checks on what the companion sends. */
module Validator {
  import opened Text
  import opened Hosts
  import opened Selector
  import opened Dnr
  import opened NetworkFilter
  import opened Controller

  const MAX_DOMAINS := 200
  const MAX_REQUEST_DOMAINS := 1000
  const MAX_RAW := 2048
  const MAX_SOURCE := 128
  const MAX_LINE := 600_000

  /** Printable ASCII, `[\x20-\x7e]+`. */
  predicate Printable(s: string) {
    s != "" && forall i | 0 <= i < |s| :: 0x20 <= s[i] as int <= 0x7e
  }

  predicate Domains(domains: set<string>, limit: nat) {
    |domains| <= limit && forall d | d in domains :: IsDomain(d)
  }

  predicate DistinctKinds(kinds: seq<Kind>) {
    forall i, j | 0 <= i < j < |kinds| :: kinds[i] != kinds[j]
  }

  /** Where a kind stands in each of the companion's lists of resource types. */
  function Place(kind: Kind): nat {
    match kind
    case SubFrame => 0 case Stylesheet => 1 case Script => 2 case Image => 3 case Font => 4 case Object => 5
    case XmlHttpRequest => 6 case Ping => 7 case Media => 8 case WebSocket => 9 case Other => 10 case MainFrame => 11
  }

  function SortedPlace(kind: Kind): nat {
    match kind
    case Font => 0 case Image => 1 case Media => 2 case Object => 3 case Other => 4 case Ping => 5
    case Script => 6 case Stylesheet => 7 case SubFrame => 8 case WebSocket => 9 case XmlHttpRequest => 10
    case MainFrame => 11
  }

  lemma Placed(i: nat)
    requires i < 11
    ensures Place(RESOURCE_TYPES[i]) == i
  {
  }

  lemma SortedPlaced(i: nat)
    requires i < 11
    ensures SortedPlace(SORTED_TYPES[i]) == i
  {
  }

  lemma TypeListsDistinct()
    ensures DistinctKinds(RESOURCE_TYPES) && DistinctKinds(SORTED_TYPES)
  {
    forall i, j | 0 <= i < j < 11 ensures RESOURCE_TYPES[i] != RESOURCE_TYPES[j] && SORTED_TYPES[i] != SORTED_TYPES[j] {
      Placed(i);
      Placed(j);
      SortedPlaced(i);
      SortedPlaced(j);
    }
  }

  predicate ValidateAction(r: Rule, subscriptions: bool) {
    (subscriptions || r.action != AllowAllRequests) && r.priority == if r.action == Block then 1 else 2
  }

  predicate ValidateTarget(c: Condition, subscriptions: bool) {
    if c.requestDomains != {} then
      subscriptions && c.urlFilter.None? && Domains(c.requestDomains, MAX_REQUEST_DOMAINS)
    else
      c.urlFilter.Some? && Utf8Len(c.urlFilter.value) <= MAX_RAW && Printable(c.urlFilter.value)
      && (subscriptions || StartsWith(c.urlFilter.value, "||"))
  }

  predicate ValidateKinds(r: Rule) {
    var kinds := r.condition.resourceTypes;
    kinds != [] && DistinctKinds(kinds)
    && if r.action == AllowAllRequests then forall i | 0 <= i < |kinds| :: kinds[i] in [MainFrame, SubFrame]
       else forall i | 0 <= i < |kinds| :: kinds[i] != MainFrame
  }

  predicate ValidateContext(c: Condition, subscriptions: bool) {
    if subscriptions then Domains(c.initiators, MAX_DOMAINS) && Domains(c.excludedInitiators, MAX_DOMAINS)
    else c.initiators == {} && c.excludedInitiators == {} && !c.caseSensitive && c.party != Some(FirstParty)
  }

  /** `validateNetwork`. */
  predicate ValidateNetwork(r: BrowserRule, subscriptions: bool) {
    && 1 <= r.id < OVERRIDE_ID
    && ValidateAction(r.rule, subscriptions)
    && ValidateTarget(r.rule.condition, subscriptions)
    && ValidateKinds(r.rule)
    && ValidateContext(r.rule.condition, subscriptions)
  }

  /** `validateCosmetic`. */
  predicate ValidateCosmetic(domains: set<string>, excluded: set<string>, selector: string, raw: string, source: string,
                             subscriptions: bool) {
    && Domains(domains, MAX_DOMAINS) && ValidSelector(selector) && Utf8Len(raw) <= MAX_RAW && Utf8Len(source) <= MAX_SOURCE
    && (excluded == {} || (subscriptions && Domains(excluded, MAX_DOMAINS)))
  }

  /** `validateDiagnostic`; targets and messages are constants of the companion. */
  predicate ValidateDiagnostic(line: nat, raw: string) {
    1 <= line <= MAX_LINE && Utf8Len(raw) <= MAX_RAW
  }

  ghost predicate DistinctIds(rules: seq<BrowserRule>) {
    forall i, j | 0 <= i < j < |rules| :: rules[i].id != rules[j].id
  }

  /** What the loop looks at: a rule's ID and whether the rule is valid. */
  datatype Examined = Examined(id: nat, valid: bool)

  function CheckedRules(rules: seq<BrowserRule>, subscriptions: bool): (checks: seq<Examined>)
    ensures |checks| == |rules|
    ensures forall i | 0 <= i < |rules| :: checks[i] == Examined(rules[i].id, ValidateNetwork(rules[i], subscriptions))
  {
    MapSeq(rules, (r: BrowserRule) => Examined(r.id, ValidateNetwork(r, subscriptions)))
  }

  ghost predicate AllAccepted(checks: seq<Examined>) {
    && (forall i, j | 0 <= i < j < |checks| :: checks[i].id != checks[j].id)
    && forall i | 0 <= i < |checks| :: checks[i].valid
  }

  /** The loop of `validateCompilation` over the network rules: it stops at the first rule that is
      invalid or repeats an ID. */
  method CheckAll(checks: seq<Examined>) returns (valid: bool)
    ensures valid <==> AllAccepted(checks)
  {
    var seen: set<nat> := {};
    for i := 0 to |checks|
      invariant forall j | 0 <= j < i :: checks[j].id in seen
      invariant forall id | id in seen :: exists j :: 0 <= j < i && checks[j].id == id
      invariant AllAccepted(checks[..i])
    {
      if !checks[i].valid {
        return false;
      }
      if checks[i].id in seen {
        return false;
      }
      seen := seen + {checks[i].id};
    }
    assert checks[..|checks|] == checks;
    return true;
  }

  /** The network part of `validateCompilation`. */
  method CheckNetwork(rules: seq<BrowserRule>, subscriptions: bool) returns (valid: bool)
    ensures valid <==> DistinctIds(rules) && forall i | 0 <= i < |rules| :: ValidateNetwork(rules[i], subscriptions)
  {
    valid := CheckAll(CheckedRules(rules, subscriptions));
  }

  // What a validated rule can and cannot do

  /** No validated rule blocks a page or takes an ID of a site override, and one of a local list lets no
      whole frame through and restricts no initiator. */
  lemma ValidatedIsBounded(r: BrowserRule, subscriptions: bool, q: Request)
    requires ValidateNetwork(r, subscriptions)
    ensures 1 <= r.id < 1_000_000_000 && RankedRule(r.rule)
    ensures r.rule.action != AllowAllRequests && q.hit.kind == MainFrame ==> !Applies(r.rule, q)
    ensures !subscriptions ==> r.rule.action != AllowAllRequests && r.rule.condition.initiators == {}
                               && r.rule.condition.excludedInitiators == {} && r.rule.condition.requestDomains == {}
  {
  }

  /** What the validator accepts is what the controller relies on. */
  lemma ValidatedIsValid(compiled: Compilation, titles: seq<string>, appliedAt: string)
    ensures |compiled.network| + |compiled.cosmetics| <= 2_000
            && (forall i | 0 <= i < |compiled.network| :: ValidateNetwork(compiled.network[i], false))
            ==> ValidLocal(compiled)
    ensures |compiled.network| <= 29_800
            && (forall i | 0 <= i < |compiled.network| :: ValidateNetwork(compiled.network[i], true))
            ==> ValidSubscriptions(Subscriptions(titles, compiled, appliedAt))
  {
  }
}
