/** What a page is told to hide. */
module ControllerPages {
  import opened Text
  import opened Hosts
  import opened Dnr
  import opened Controller
  import opened ControllerSteps
  import opened SubscriptionCosmetics

  const MAX_SELECTORS := 12_000

  predicate Under(host: string, domains: set<string>) { exists d | d in domains :: MatchesDomain(host, d) }

  /** The filter over the hiding rules. */
  predicate Wanted(item: Cosmetic, host: string) {
    (item.domains == {} || Under(host, item.domains)) && !Under(host, item.excluded)
  }

  /** The selectors of the rules for a host, in order. */
  function SelectorsFor(items: seq<Cosmetic>, host: string): seq<string> {
    if items == [] then []
    else (if Wanted(items[0], host) then [items[0].selector] else []) + SelectorsFor(items[1..], host)
  }

  /** Without repeats, each at its first place. */
  function Firsts(s: seq<string>): seq<string> {
    if s == [] then [] else
      var n := |s| - 1;
      if s[n] in s[..n] then Firsts(s[..n]) else Firsts(s[..n]) + [s[n]]
  }

  function AllCosmetics(c: Config): seq<Cosmetic> {
    c.compiled.cosmetics + if c.subscriptions.Some? then c.subscriptions.value.compiled.cosmetics else []
  }

  /** `cosmetics`. */
  function PageSelectors(c: Config, host: string): seq<string> {
    if !IsDomain(host) || !c.enabled || DisabledBy(host, c.disabledSites) then [] else
      var all := Firsts(SelectorsFor(AllCosmetics(c), host));
      if |all| <= MAX_SELECTORS then all else all[..MAX_SELECTORS]
  }

  lemma WantedShows(item: Cosmetic, host: string)
    ensures Wanted(item, host) <==> Shows(item, host)
  {
    assert Under(host, item.domains) <==> InAny(host, item.domains);
    assert Under(host, item.excluded) <==> InAny(host, item.excluded);
  }

  lemma {:induction false} SelectorsAre(items: seq<Cosmetic>, host: string, selector: string)
    ensures selector in SelectorsFor(items, host)
            <==> exists item :: item in items && item.selector == selector && Shows(item, host)
  {
    if items != [] {
      SelectorsAre(items[1..], host, selector);
      WantedShows(items[0], host);
      assert items == [items[0]] + items[1..];
    }
  }

  ghost predicate NoRepeat(s: seq<string>) { forall i, j | 0 <= i < j < |s| :: s[i] != s[j] }

  lemma {:induction false} FirstsAre(s: seq<string>)
    ensures NoRepeat(Firsts(s)) && forall x :: x in Firsts(s) <==> x in s
  {
    if s != [] {
      var n := |s| - 1;
      FirstsAre(s[..n]);
      assert s == s[..n] + [s[n]];
    }
  }

  /** Some rule of the local list or the subscriptions hides the selector on the host. */
  ghost predicate HiddenOn(c: Config, selector: string, host: string) {
    exists item :: item in AllCosmetics(c) && item.selector == selector && Shows(item, host)
  }

  lemma {:induction false} SelectorsFew(items: seq<Cosmetic>, host: string)
    ensures |SelectorsFor(items, host)| <= |items|
  {
    if items != [] { SelectorsFew(items[1..], host); }
  }

  lemma {:induction false} FirstsFew(s: seq<string>)
    ensures |Firsts(s)| <= |s|
  {
    if s != [] { FirstsFew(s[..|s| - 1]); }
  }

  /** As many hiding rules as the local list and the subscriptions may have. */
  predicate BoundedCosmetics(c: Config) {
    ValidLocal(c.compiled) && (c.subscriptions.Some? ==> |c.subscriptions.value.compiled.cosmetics| <= 10_000)
  }

  /** A page gets a selector exactly when it is of a domain where protection is on and some rule hides
      the selector there, and each only once: for valid configurations the limit cuts nothing off. */
  lemma PageSelectorsAre(c: Config, host: string, selector: string)
    requires BoundedCosmetics(c)
    ensures NoRepeat(PageSelectors(c, host))
    ensures selector in PageSelectors(c, host)
            <==> IsDomain(host) && c.enabled && !(exists site :: site in c.disabledSites && MatchesDomain(host, site))
                 && HiddenOn(c, selector, host)
  {
    var selectors := SelectorsFor(AllCosmetics(c), host);
    FirstsAre(selectors);
    FirstsFew(selectors);
    SelectorsFew(AllCosmetics(c), host);
    SelectorsAre(AllCosmetics(c), host, selector);
  }
}
