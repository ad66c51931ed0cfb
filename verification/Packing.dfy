/** Packing of full-hostname filters into rules that list up to 1,000 hosts. */
module Packing {
  import opened Text
  import opened Hosts
  import opened Dnr
  import opened Chunks
  import UrlFilter

  /** The host of a pattern of the form `||host^`. */
  function FullHost(pattern: string): Option<string> {
    if !StartsWith(pattern, "||") || !EndsWith(pattern[2..], "^") then None else
      var host := pattern[2..][..|pattern| - 3];
      if HostValid(host) then Some(host) else None
  }

  function HostOf(r: Rule): Option<string> {
    if r.condition.urlFilter.Some? && !r.condition.caseSensitive then FullHost(r.condition.urlFilter.value) else None
  }

  /** The rule without its URL pattern: what packed rules have in common. */
  function Template(r: Rule): Rule { r.(condition := r.condition.(urlFilter := None)) }

  function WithHosts(template: Rule, hosts: set<string>): Rule {
    template.(condition := template.condition.(requestDomains := hosts))
  }

  ghost predicate Unpacked(rules: set<Rule>) {
    forall r | r in rules :: r.condition.requestDomains == {} && r.condition.urlFilter.Some?
  }

  ghost function GroupHosts(rules: set<Rule>, template: Rule): set<string> {
    set r | r in rules && HostOf(r).Some? && Template(r) == template :: Lower(HostOf(r).value)
  }

  /** Rules that cannot be packed, unchanged. */
  ghost function Loose(rules: set<Rule>): set<Rule> {
    set r | r in rules && HostOf(r).None?
  }

  ghost predicate LooseKept(rules: set<Rule>, out: set<Rule>) {
    Loose(rules) <= out && forall r | r in out && r.condition.requestDomains == {} :: r in Loose(rules)
  }

  /** Every packed rule lists only hosts of its own group, between 1 and 1,000 of them. */
  ghost predicate GroupsSound(rules: set<Rule>, out: set<Rule>) {
    forall r | r in out && r.condition.requestDomains != {} ::
      && r.condition.urlFilter.None?
      && |r.condition.requestDomains| <= MAX_GROUP
      && r.condition.requestDomains <= GroupHosts(rules, WithHosts(r, {}))
  }

  ghost predicate Carries(p: Rule, r: Rule)
    requires HostOf(r).Some?
  {
    WithHosts(p, {}) == Template(r) && Lower(HostOf(r).value) in p.condition.requestDomains
  }

  /** No host is lost. */
  ghost predicate GroupsComplete(rules: set<Rule>, out: set<Rule>) {
    forall r | r in rules && HostOf(r).Some? :: exists p :: p in out && Carries(p, r)
  }

  /** No host is listed twice under the same conditions. */
  ghost predicate GroupsDisjoint(out: set<Rule>) {
    forall p, q, h | p in out && q in out && h in p.condition.requestDomains && h in q.condition.requestDomains
                     && WithHosts(p, {}) == WithHosts(q, {}) :: p == q
  }

  ghost predicate Packs(rules: set<Rule>, out: set<Rule>) {
    LooseKept(rules, out) && GroupsSound(rules, out) && GroupsComplete(rules, out) && GroupsDisjoint(out)
  }

  lemma FullHostShape(pattern: string)
    requires FullHost(pattern).Some?
    ensures pattern == "||" + FullHost(pattern).value + "^" && HostValid(FullHost(pattern).value)
  {
    var rest := pattern[2..];
    assert pattern == pattern[..2] + rest;
    assert rest == rest[..|rest| - 1] + rest[|rest| - 1..];
  }

  /** Exactly the patterns of two bars, a valid host and `^` name a full host. */
  lemma FullHostIs(pattern: string, host: string)
    ensures FullHost(pattern) == Some(host) <==> HostValid(host) && pattern == "||" + host + "^"
  {
    if FullHost(pattern) == Some(host) { FullHostShape(pattern); }
    if HostValid(host) && pattern == "||" + host + "^" {
      assert pattern[..2] == "||" && pattern[2..] == host + "^";
      assert (host + "^")[|host|..] == "^" && (host + "^")[..|host|] == host;
    }
  }

  /** A packable rule matches exactly the requests to its host and subdomains. */
  lemma PackableMeets(r: Rule, hit: Hit)
    requires HostOf(r).Some? && r.condition.requestDomains == {} && UrlFilter.WellFormed(hit.url)
    ensures Meets(r.condition, hit)
            <==> MeetsContext(Template(r).condition, hit) && MatchesDomain(hit.url.host, Lower(HostOf(r).value))
  {
    var pattern := r.condition.urlFilter.value;
    FullHostShape(pattern);
    UrlFilter.HostAnchorIsSuffixMatch(HostOf(r).value, hit.url);
  }

  lemma PackedMeets(p: Rule, hit: Hit)
    requires p.condition.requestDomains != {} && p.condition.urlFilter.None?
    ensures Meets(p.condition, hit)
            <==> MeetsContext(WithHosts(p, {}).condition, hit) && InAny(hit.url.host, p.condition.requestDomains)
  {
  }

  /** Some rule with this action and priority matches the hit itself. */
  ghost predicate OffersHit(rules: set<Rule>, hit: Hit, action: Action, priority: nat) {
    exists r :: r in rules && r.action == action && r.priority == priority && Meets(r.condition, hit)
  }

  lemma PackedOffersMore(rules: set<Rule>, out: set<Rule>, hit: Hit, action: Action, priority: nat)
    requires Unpacked(rules) && Packs(rules, out) && UrlFilter.WellFormed(hit.url)
    requires OffersHit(rules, hit, action, priority)
    ensures OffersHit(out, hit, action, priority)
  {
    var r :| r in rules && r.action == action && r.priority == priority && Meets(r.condition, hit);
    if HostOf(r).None? {
      assert r in Loose(rules);
    } else {
      var host := Lower(HostOf(r).value);
      var p :| p in out && Carries(p, r);
      PackableMeets(r, hit);
      PackedMeets(p, hit);
      assert InAny(hit.url.host, p.condition.requestDomains);
    }
  }

  lemma PackedOffersLess(rules: set<Rule>, out: set<Rule>, hit: Hit, action: Action, priority: nat)
    requires Unpacked(rules) && Packs(rules, out) && UrlFilter.WellFormed(hit.url)
    requires OffersHit(out, hit, action, priority)
    ensures OffersHit(rules, hit, action, priority)
  {
    var p :| p in out && p.action == action && p.priority == priority && Meets(p.condition, hit);
    if p.condition.requestDomains == {} {
      assert p in Loose(rules);
    } else {
      PackedMeets(p, hit);
      var host :| host in p.condition.requestDomains && MatchesDomain(hit.url.host, host);
      assert host in GroupHosts(rules, WithHosts(p, {}));
      var r :| r in rules && HostOf(r).Some? && Template(r) == WithHosts(p, {}) && Lower(HostOf(r).value) == host;
      PackableMeets(r, hit);
    }
  }

  lemma OffersByHits(rules: set<Rule>, q: Request, action: Action, priority: nat)
    ensures Offers(rules, q, action, priority)
            <==> OffersHit(rules, q.hit, action, priority)
                 || (action == AllowAllRequests && exists f :: f in q.frames && OffersHit(rules, f, action, priority))
  {
    if Offers(rules, q, action, priority) {
      var r :| r in rules && r.action == action && r.priority == priority && Applies(r, q);
      if !Meets(r.condition, q.hit) {
        var f :| f in q.frames && Meets(r.condition, f);
        assert OffersHit(rules, f, action, priority);
      }
    }
    if action == AllowAllRequests && exists f :: f in q.frames && OffersHit(rules, f, action, priority) {
      var f :| f in q.frames && OffersHit(rules, f, action, priority);
      var r :| r in rules && r.action == action && r.priority == priority && Meets(r.condition, f);
      assert Applies(r, q);
    }
  }

  /** Packing offers every request the same actions at the same priorities, so it never
      changes a verdict. */
  lemma PackingPreservesMeaning(rules: set<Rule>, out: set<Rule>, q: Request)
    requires Unpacked(rules) && Packs(rules, out) && WellFormed(q)
    ensures forall action, priority :: Offers(rules, q, action, priority) <==> Offers(out, q, action, priority)
    ensures Decide(rules, q) == Decide(out, q)
  {
    forall action, priority
      ensures Offers(rules, q, action, priority) <==> Offers(out, q, action, priority)
    {
      OffersByHits(rules, q, action, priority);
      OffersByHits(out, q, action, priority);
      forall hit | hit == q.hit || hit in q.frames
        ensures OffersHit(rules, hit, action, priority) <==> OffersHit(out, hit, action, priority)
      {
        if OffersHit(rules, hit, action, priority) { PackedOffersMore(rules, out, hit, action, priority); }
        if OffersHit(out, hit, action, priority) { PackedOffersLess(rules, out, hit, action, priority); }
      }
    }
    OffersDecide(rules, out, q);
  }

  // The packing loops

  ghost predicate Grouped(done: set<Rule>, groups: map<Rule, set<string>>) {
    && (forall t | t in groups :: groups[t] == GroupHosts(done, t) && groups[t] != {} && WithHosts(t, {}) == t
                                  && t.condition.urlFilter.None?)
    && (forall r | r in done && HostOf(r).Some? :: Template(r) in groups)
  }

  /** The first loop: collect the hosts of each template. */
  method Group(rules: set<Rule>) returns (loose: set<Rule>, groups: map<Rule, set<string>>)
    requires Unpacked(rules)
    ensures loose == Loose(rules)
    ensures Grouped(rules, groups)
  {
    loose, groups := {}, map[];
    var todo, done: set<Rule> := rules, {};
    while todo != {}
      invariant todo + done == rules && todo !! done
      invariant loose == Loose(done)
      invariant Grouped(done, groups)
      decreases todo
    {
      var r :| r in todo;
      var host := HostOf(r);
      if host.Some? {
        var t := Template(r);
        GroupGrows(done, groups, r);
        groups := groups[t := (if t in groups then groups[t] else {}) + {Lower(host.value)}];
      } else {
        loose := loose + {r};
        assert forall t :: GroupHosts(done + {r}, t) == GroupHosts(done, t);
      }
      todo, done := todo - {r}, done + {r};
    }
    assert done == rules;
  }

  lemma GroupHostsGrow(done: set<Rule>, r: Rule, u: Rule)
    requires HostOf(r).Some?
    ensures GroupHosts(done + {r}, u) == GroupHosts(done, u) + if u == Template(r) then {Lower(HostOf(r).value)} else {}
  {
  }

  lemma GroupGrows(done: set<Rule>, groups: map<Rule, set<string>>, r: Rule)
    requires Grouped(done, groups) && HostOf(r).Some? && r.condition.requestDomains == {}
    ensures var t := Template(r);
            var hosts := (if t in groups then groups[t] else {}) + {Lower(HostOf(r).value)};
            Grouped(done + {r}, groups[t := hosts])
  {
    var t := Template(r);
    if t !in groups {
      assert GroupHosts(done, t) == {};
    }
    forall u ensures GroupHosts(done + {r}, u) == GroupHosts(done, u) + if u == t then {Lower(HostOf(r).value)} else {} {
      GroupHostsGrow(done, r, u);
    }
    assert WithHosts(t, {}) == t;
  }

  ghost predicate Chunked(groups: map<Rule, set<string>>, chunks: map<Rule, seq<set<string>>>) {
    forall t | t in chunks :: t in groups && Partition(groups[t], chunks[t])
  }

  ghost function Packed(chunks: map<Rule, seq<set<string>>>): set<Rule> {
    set t, c | t in chunks && c in chunks[t] :: WithHosts(t, c)
  }

  function WithAll(template: Rule, chunks: seq<set<string>>): set<Rule> {
    set c | c in chunks :: WithHosts(template, c)
  }

  lemma PackedGrows(chunks: map<Rule, seq<set<string>>>, t: Rule, more: seq<set<string>>)
    requires t !in chunks
    ensures Packed(chunks[t := more]) == Packed(chunks) + WithAll(t, more)
  {
    var all := chunks[t := more];
    forall r | r in Packed(all) ensures r in Packed(chunks) + WithAll(t, more) {
      var u, c :| u in all && c in all[u] && r == WithHosts(u, c);
      if u != t { assert u in chunks && c in chunks[u]; }
    }
    forall r | r in Packed(chunks) ensures r in Packed(all) {
      var u, c :| u in chunks && c in chunks[u] && r == WithHosts(u, c);
      assert u in all && c in all[u];
    }
    forall c | c in more ensures WithHosts(t, c) in Packed(all) { assert t in all && c in all[t]; }
  }

  ghost predicate ChunkSizes(groups: map<Rule, set<string>>, chunks: map<Rule, seq<set<string>>>) {
    forall t | t in chunks && t in groups :: |chunks[t]| == Groups(|groups[t]|)
  }

  /** After some templates: their groups are made, the others are still to do. */
  ghost predicate Progress(groups: map<Rule, set<string>>, chunks: map<Rule, seq<set<string>>>, todo: set<Rule>, packed: set<Rule>) {
    todo + chunks.Keys == groups.Keys && todo !! chunks.Keys && packed == Packed(chunks) && Chunked(groups, chunks)
    && ChunkSizes(groups, chunks)
  }

  lemma ProgressStep(groups: map<Rule, set<string>>, chunks: map<Rule, seq<set<string>>>, todo: set<Rule>, packed: set<Rule>,
                     t: Rule, more: seq<set<string>>)
    requires Progress(groups, chunks, todo, packed) && t in todo && Partition(groups[t], more)
    requires |more| == Groups(|groups[t]|)
    ensures Progress(groups, chunks[t := more], todo - {t}, packed + WithAll(t, more))
  {
    PackedGrows(chunks, t, more);
    ChunkedGrows(groups, chunks, t, more);
  }

  /** The packed rules with this template. */
  ghost function PackedFor(out: set<Rule>, t: Rule): set<Rule> {
    set p | p in out && p.condition.requestDomains != {} && WithHosts(p, {}) == t
  }

  /** Each template has as few packed rules as its hosts allow. */
  ghost predicate FewGroups(rules: set<Rule>, out: set<Rule>) {
    forall t :: |PackedFor(out, t)| == Groups(|GroupHosts(rules, t)|)
  }

  lemma {:induction false} DistinctSets(chunks: seq<set<string>>)
    requires Disjoint(chunks) && forall i | 0 <= i < |chunks| :: chunks[i] != {}
    ensures |(set c | c in chunks)| == |chunks|
  {
    if chunks != [] {
      var n := |chunks| - 1;
      var front, last := chunks[..n], chunks[n];
      DistinctSets(front);
      var h :| h in last;
      assert forall i | 0 <= i < n :: h !in chunks[i];
      assert last !in front;
      assert chunks == front + [last];
      assert (set c | c in chunks) == (set c | c in front) + {last};
    }
  }

  lemma SameCount(t: Rule, sets: set<set<string>>, rules: set<Rule>)
    requires rules == (set c | c in sets :: WithHosts(t, c))
    ensures |rules| == |sets|
    decreases |sets|
  {
    if c :| c in sets {
      SameCount(t, sets - {c}, rules - {WithHosts(t, c)});
      forall d | d in sets && d != c ensures WithHosts(t, d) != WithHosts(t, c) {
        assert WithHosts(t, d).condition.requestDomains == d;
      }
      assert rules == (rules - {WithHosts(t, c)}) + {WithHosts(t, c)};
    }
  }

  lemma PackedForTemplate(groups: map<Rule, set<string>>, chunks: map<Rule, seq<set<string>>>, rules: set<Rule>, t: Rule)
    requires Unpacked(rules) && Grouped(rules, groups) && Chunked(groups, chunks) && t in chunks
    ensures PackedFor(Loose(rules) + Packed(chunks), t) == WithAll(t, chunks[t])
  {
    var out := Loose(rules) + Packed(chunks);
    assert WithHosts(t, {}) == t && Sized(groups[t], chunks[t]);
    forall p | p in PackedFor(out, t) ensures p in WithAll(t, chunks[t]) {
      PackedOrigin(rules, groups, chunks, p);
      assert p == WithHosts(t, p.condition.requestDomains);
    }
    forall c | c in chunks[t] ensures WithHosts(t, c) in PackedFor(out, t) {
      assert WithHosts(WithHosts(t, c), {}) == WithHosts(t, {}) == t;
      assert WithHosts(t, c) in Packed(chunks);
    }
  }

  lemma TemplateFew(rules: set<Rule>, groups: map<Rule, set<string>>, chunks: map<Rule, seq<set<string>>>, t: Rule)
    requires Unpacked(rules) && Grouped(rules, groups) && Chunked(groups, chunks) && ChunkSizes(groups, chunks) && t in chunks
    ensures |PackedFor(Loose(rules) + Packed(chunks), t)| == Groups(|GroupHosts(rules, t)|)
  {
    PackedForTemplate(groups, chunks, rules, t);
    GroupCount(t, groups[t], chunks[t]);
  }

  lemma GroupCount(t: Rule, hosts: set<string>, chunks: seq<set<string>>)
    requires Partition(hosts, chunks)
    ensures |WithAll(t, chunks)| == |chunks|
  {
    DistinctSets(chunks);
    SameCount(t, (set c | c in chunks), WithAll(t, chunks));
  }

  lemma NoTemplate(rules: set<Rule>, groups: map<Rule, set<string>>, chunks: map<Rule, seq<set<string>>>, t: Rule)
    requires Unpacked(rules) && Grouped(rules, groups) && Chunked(groups, chunks) && chunks.Keys == groups.Keys && t !in chunks
    ensures |PackedFor(Loose(rules) + Packed(chunks), t)| == Groups(|GroupHosts(rules, t)|)
  {
    var out := Loose(rules) + Packed(chunks);
    assert GroupHosts(rules, t) == {};
    forall p | p in out && p.condition.requestDomains != {} ensures WithHosts(p, {}) != t {
      PackedOrigin(rules, groups, chunks, p);
    }
    assert PackedFor(out, t) == {};
  }

  lemma GroupsAreFew(rules: set<Rule>, groups: map<Rule, set<string>>, chunks: map<Rule, seq<set<string>>>)
    requires Unpacked(rules) && Grouped(rules, groups) && Chunked(groups, chunks) && chunks.Keys == groups.Keys
    requires ChunkSizes(groups, chunks)
    ensures FewGroups(rules, Loose(rules) + Packed(chunks))
  {
    forall t ensures |PackedFor(Loose(rules) + Packed(chunks), t)| == Groups(|GroupHosts(rules, t)|) {
      if t in chunks { TemplateFew(rules, groups, chunks, t); } else { NoTemplate(rules, groups, chunks, t); }
    }
  }

  /** `pack_network`. */
  method PackNetwork(rules: set<Rule>) returns (out: set<Rule>)
    requires Unpacked(rules)
    ensures Packs(rules, out) && FewGroups(rules, out)
  {
    var loose, groups := Group(rules);
    var todo, packed := groups.Keys, {};
    ghost var chunked: map<Rule, seq<set<string>>> := map[];
    assert Progress(groups, chunked, todo, packed);
    while todo != {}
      invariant Progress(groups, chunked, todo, packed)
      decreases |todo|
    {
      var t :| t in todo;
      var chunks := Chunk(groups[t]);
      ProgressStep(groups, chunked, todo, packed, t, chunks);
      packed := packed + WithAll(t, chunks);
      chunked := chunked[t := chunks];
      todo := todo - {t};
    }
    AllPacked(rules, groups, chunked);
    GroupsAreFew(rules, groups, chunked);
    out := loose + packed;
  }

  lemma ChunkedGrows(groups: map<Rule, set<string>>, chunks: map<Rule, seq<set<string>>>, t: Rule, more: seq<set<string>>)
    requires Chunked(groups, chunks) && t in groups && Partition(groups[t], more)
    ensures Chunked(groups, chunks[t := more])
  {
  }

  lemma AllPacked(rules: set<Rule>, groups: map<Rule, set<string>>, chunks: map<Rule, seq<set<string>>>)
    requires Unpacked(rules) && Grouped(rules, groups) && Chunked(groups, chunks) && chunks.Keys == groups.Keys
    ensures Packs(rules, Loose(rules) + Packed(chunks))
  {
    AllSound(rules, groups, chunks);
    AllComplete(rules, groups, chunks);
    AllDisjoint(rules, groups, chunks);
  }

  lemma PackedOrigin(rules: set<Rule>, groups: map<Rule, set<string>>, chunks: map<Rule, seq<set<string>>>, r: Rule)
    requires Grouped(rules, groups) && Chunked(groups, chunks)
    requires r in Packed(chunks)
    ensures var t, c := WithHosts(r, {}), r.condition.requestDomains;
            t in chunks && c in chunks[t] && c != {} && |c| <= MAX_GROUP && c <= GroupHosts(rules, t)
            && r.condition.urlFilter.None?
  {
    var t, c :| t in chunks && c in chunks[t] && r == WithHosts(t, c);
    assert WithHosts(r, {}) == WithHosts(t, {}) == t;
    assert Sized(groups[t], chunks[t]);
  }

  lemma AllSound(rules: set<Rule>, groups: map<Rule, set<string>>, chunks: map<Rule, seq<set<string>>>)
    requires Unpacked(rules) && Grouped(rules, groups) && Chunked(groups, chunks)
    ensures LooseKept(rules, Loose(rules) + Packed(chunks))
    ensures GroupsSound(rules, Loose(rules) + Packed(chunks))
  {
    forall r | r in Packed(chunks)
      ensures r.condition.urlFilter.None? && r.condition.requestDomains != {}
      ensures |r.condition.requestDomains| <= MAX_GROUP
      ensures r.condition.requestDomains <= GroupHosts(rules, WithHosts(r, {}))
    {
      PackedOrigin(rules, groups, chunks, r);
    }
  }

  lemma AllComplete(rules: set<Rule>, groups: map<Rule, set<string>>, chunks: map<Rule, seq<set<string>>>)
    requires Grouped(rules, groups) && Chunked(groups, chunks) && chunks.Keys == groups.Keys
    ensures GroupsComplete(rules, Loose(rules) + Packed(chunks))
  {
    forall r | r in rules && HostOf(r).Some? ensures exists p :: p in Loose(rules) + Packed(chunks) && Carries(p, r) {
      var t, host := Template(r), Lower(HostOf(r).value);
      assert host in groups[t] && t in chunks && Covers(groups[t], chunks[t]);
      var i :| 0 <= i < |chunks[t]| && host in chunks[t][i];
      var p := WithHosts(t, chunks[t][i]);
      assert p in Packed(chunks);
      assert WithHosts(p, {}) == WithHosts(t, {}) == t;
      assert Carries(p, r);
    }
  }

  /** Two packed rules of one template that share a host are the same group. */
  lemma SameGroup(rules: set<Rule>, groups: map<Rule, set<string>>, chunks: map<Rule, seq<set<string>>>, p: Rule, q: Rule,
                  h: string)
    requires Grouped(rules, groups) && Chunked(groups, chunks) && p in Packed(chunks) && q in Packed(chunks)
    requires h in p.condition.requestDomains && h in q.condition.requestDomains && WithHosts(p, {}) == WithHosts(q, {})
    ensures p == q
  {
    var t := WithHosts(p, {});
    var i := GroupPlace(rules, groups, chunks, p);
    var j := GroupPlace(rules, groups, chunks, q);
    assert Disjoint(chunks[t]);
    assert i == j;
  }

  lemma PlaceOf<T>(s: seq<T>, x: T) returns (i: nat)
    requires x in s
    ensures i < |s| && s[i] == x
  {
    i :| 0 <= i < |s| && s[i] == x;
  }

  /** Which group of its template a packed rule lists. */
  lemma GroupPlace(rules: set<Rule>, groups: map<Rule, set<string>>, chunks: map<Rule, seq<set<string>>>, p: Rule)
    returns (i: nat)
    requires Grouped(rules, groups) && Chunked(groups, chunks) && p in Packed(chunks)
    ensures var t := WithHosts(p, {});
            t in groups && t in chunks && Partition(groups[t], chunks[t]) && i < |chunks[t]|
            && chunks[t][i] == p.condition.requestDomains && p == WithHosts(t, chunks[t][i])
  {
    PackedOrigin(rules, groups, chunks, p);
    var t := WithHosts(p, {});
    i := PlaceOf(chunks[t], p.condition.requestDomains);
  }

  lemma AllDisjoint(rules: set<Rule>, groups: map<Rule, set<string>>, chunks: map<Rule, seq<set<string>>>)
    requires Unpacked(rules) && Grouped(rules, groups) && Chunked(groups, chunks)
    ensures GroupsDisjoint(Loose(rules) + Packed(chunks))
  {
    var out := Loose(rules) + Packed(chunks);
    forall p, q, h | p in out && q in out && h in p.condition.requestDomains && h in q.condition.requestDomains
                     && WithHosts(p, {}) == WithHosts(q, {})
      ensures p == q
    {
      assert p !in Loose(rules) && q !in Loose(rules);
      SameGroup(rules, groups, chunks, p, q, h);
    }
  }

  // Packing never adds a rule

  /** A rule of which an emitted one is made. */
  ghost predicate Stems(p: Rule, r: Rule) {
    if p.condition.requestDomains == {} then r == p && HostOf(r).None? else HostOf(r).Some? && Carries(p, r)
  }

  ghost predicate AllStem(rules: set<Rule>, out: set<Rule>) {
    forall p | p in out :: exists r :: r in rules && Stems(p, r)
  }

  lemma PacksStem(rules: set<Rule>, out: set<Rule>)
    requires Packs(rules, out)
    ensures AllStem(rules, out)
  {
    forall p | p in out ensures exists r :: r in rules && Stems(p, r) {
      if p.condition.requestDomains == {} {
        assert p in Loose(rules) && Stems(p, p);
      } else {
        var h :| h in p.condition.requestDomains;
        var r :| r in rules && HostOf(r).Some? && Template(r) == WithHosts(p, {}) && Lower(HostOf(r).value) == h;
        assert Stems(p, r);
      }
    }
  }

  lemma {:induction false} StemSize(rules: set<Rule>, out: set<Rule>)
    requires AllStem(rules, out) && GroupsDisjoint(out)
    ensures |out| <= |rules|
    decreases |out|
  {
    if p :| p in out {
      var r :| r in rules && Stems(p, r);
      forall q | q in out - {p} ensures exists s :: s in rules - {r} && Stems(q, s) {
        var s :| s in rules && Stems(q, s);
        assert s != r;
      }
      StemSize(rules - {r}, out - {p});
    }
  }

  /** There are never more packed rules than rules. */
  lemma PackingShrinks(rules: set<Rule>, out: set<Rule>)
    requires Packs(rules, out)
    ensures |out| <= |rules|
  {
    PacksStem(rules, out);
    StemSize(rules, out);
  }
}
