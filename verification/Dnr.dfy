/** The browser's declarative network rules and what they decide about a request. */
module Dnr {
  import opened Text
  import opened Hosts
  import UrlFilter

  datatype Action = Block | Allow | AllowAllRequests

  datatype Party = FirstParty | ThirdParty

  /** Resource types of the rule API. */
  datatype Kind =
    | MainFrame | SubFrame | Stylesheet | Script | Image | Font | Object | XmlHttpRequest | Ping | Media | WebSocket
    | Other

  /** A rule condition.  Domain lists are sets: the source keeps them sorted and
      free of duplicates, and leaves an empty list out of the condition. */
  datatype Condition = Condition(
    urlFilter: Option<string>,
    requestDomains: set<string>,
    resourceTypes: seq<Kind>,
    party: Option<Party>,
    initiators: set<string>,
    excludedInitiators: set<string>,
    caseSensitive: bool)

  datatype Rule = Rule(priority: nat, action: Action, condition: Condition)

  /** What a condition looks at in one request. */
  datatype Hit = Hit(url: UrlFilter.Url, initiator: Option<string>, thirdParty: bool, kind: Kind)

  /** A request together with the frame requests it happens in. */
  datatype Request = Request(hit: Hit, frames: seq<Hit>)

  ghost predicate WellFormed(q: Request) {
    UrlFilter.WellFormed(q.hit.url) && forall f | f in q.frames :: UrlFilter.WellFormed(f.url)
  }

  ghost predicate InAny(host: string, domains: set<string>) {
    exists d :: d in domains && MatchesDomain(host, d)
  }

  ghost predicate FromAny(initiator: Option<string>, domains: set<string>) {
    initiator.Some? && InAny(initiator.value, domains)
  }

  /** Everything in a condition except where the request goes. */
  ghost predicate MeetsContext(c: Condition, hit: Hit) {
    && hit.kind in c.resourceTypes
    && (c.party.Some? ==> hit.thirdParty == (c.party.value == ThirdParty))
    && (c.initiators != {} ==> FromAny(hit.initiator, c.initiators))
    && !FromAny(hit.initiator, c.excludedInitiators)
  }

  ghost predicate MeetsTarget(c: Condition, hit: Hit) {
    && (c.urlFilter.Some? ==> UrlFilter.Matches(c.urlFilter.value, c.caseSensitive, hit.url))
    && (c.requestDomains != {} ==> InAny(hit.url.host, c.requestDomains))
  }

  ghost predicate Meets(c: Condition, hit: Hit) {
    MeetsContext(c, hit) && MeetsTarget(c, hit)
  }

  /** An `allowAllRequests` rule also applies to everything inside a frame it matches. */
  ghost predicate Applies(r: Rule, q: Request) {
    Meets(r.condition, q.hit)
    || (r.action == AllowAllRequests && exists f :: f in q.frames && Meets(r.condition, f))
  }

  datatype Verdict = Blocked | Allowed | Unmatched

  ghost predicate Beats(winner: Rule, other: Rule) {
    other.priority < winner.priority
    || (other.priority == winner.priority && (winner.action != Block || other.action == Block))
  }

  /** Highest priority wins; among equals an allowing rule wins. */
  ghost predicate Wins(r: Rule, rules: set<Rule>, q: Request) {
    r in rules && Applies(r, q) && forall o | o in rules && Applies(o, q) :: Beats(r, o)
  }

  ghost function Decide(rules: set<Rule>, q: Request): (v: Verdict)
  {
    if exists r :: Wins(r, rules, q) && r.action == Block then Blocked
    else if exists r :: r in rules && Applies(r, q) then Allowed
    else Unmatched
  }

  /** Which action and priority pairs a rule set offers for a request. */
  ghost predicate Offers(rules: set<Rule>, q: Request, action: Action, priority: nat) {
    exists r :: r in rules && r.action == action && r.priority == priority && Applies(r, q)
  }

  /** The verdict depends only on the action and priority pairs that apply. */
  lemma OffersDecide(a: set<Rule>, b: set<Rule>, q: Request)
    requires forall action, priority :: Offers(a, q, action, priority) <==> Offers(b, q, action, priority)
    ensures Decide(a, q) == Decide(b, q)
  {
    WinTransfers(a, b, q);
    WinTransfers(b, a, q);
    AppliesTransfers(a, b, q);
    AppliesTransfers(b, a, q);
  }

  lemma AppliesTransfers(a: set<Rule>, b: set<Rule>, q: Request)
    requires forall action, priority :: Offers(a, q, action, priority) <==> Offers(b, q, action, priority)
    ensures (exists r :: r in a && Applies(r, q)) ==> exists r :: r in b && Applies(r, q)
  {
    if r :| r in a && Applies(r, q) {
      assert Offers(a, q, r.action, r.priority);
      assert Offers(b, q, r.action, r.priority);
    }
  }

  lemma WinTransfers(a: set<Rule>, b: set<Rule>, q: Request)
    requires forall action, priority :: Offers(a, q, action, priority) <==> Offers(b, q, action, priority)
    ensures (exists r :: Wins(r, a, q) && r.action == Block) ==> exists r :: Wins(r, b, q) && r.action == Block
  {
    if r :| Wins(r, a, q) && r.action == Block {
      assert Offers(a, q, Block, r.priority);
      var s :| s in b && s.action == Block && s.priority == r.priority && Applies(s, q);
      forall o | o in b && Applies(o, q) ensures Beats(s, o) {
        assert Offers(b, q, o.action, o.priority);
        var p :| p in a && p.action == o.action && p.priority == o.priority && Applies(p, q);
        assert Beats(r, p);
      }
      assert Wins(s, b, q);
    }
  }
}
