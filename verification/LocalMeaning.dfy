/** What a local list means, read from its text: which requests it blocks and lets through, and what it
    hides where. */
module LocalMeaning {
  import opened Text
  import opened Hosts
  import opened Selector
  import opened LocalRules
  import opened LocalCompiler
  import Dnr
  import Controller
  import NetworkMeaning
  import SubscriptionSafety
  import UrlFilter

  // Network lines

  /** What may follow the host: `^`, or a literal path. */
  predicate Tail(tail: string) {
    tail == "^"
    || (tail != "" && tail[0] == '/'
        && forall c | c in tail :: ('a' <= c <= 'z') || ('A' <= c <= 'Z') || ('0' <= c <= '9') || c in "/._%~:@!&=+-")
  }

  function Mark(exception: bool): string { if exception then "@@" else "" }
  function Modifier(thirdParty: bool): string { if thirdParty then "$third-party" else "" }

  /** `||host^` or `||host/path`, with `@@` before it or `$third-party` after it. */
  predicate NetLine(raw: string, exception: bool, host: string, tail: string, thirdParty: bool) {
    HostValid(host) && Tail(tail) && raw == Mark(exception) + (("||" + (host + tail)) + Modifier(thirdParty))
  }

  /** The URL goes to the host or a subdomain and, for a path, begins with it, in any case. */
  predicate Reaches(url: UrlFilter.Url, host: string, tail: string) {
    MatchesDomain(url.host, Lower(host)) && (tail == "^" || StartsWith(Lower(url.rest), Lower(tail)))
  }

  /** The text of a line describes a request. */
  ghost predicate Describes(raw: string, exception: bool, hit: Dnr.Hit) {
    hit.kind != Dnr.MainFrame
    && exists host, tail, thirdParty ::
         NetLine(raw, exception, host, tail, thirdParty) && Reaches(hit.url, host, tail) && (thirdParty ==> hit.thirdParty)
  }

  // Reading a network line

  lemma TailChars(tail: string)
    requires Tail(tail)
    ensures '$' !in tail && '#' !in tail && '*' !in tail && '|' !in tail && tail != "" && (tail != "^" ==> '^' !in tail)
  {
  }

  lemma PathReads(tail: string)
    ensures tail != "^" ==> (ValidPath(tail) <==> Tail(tail))
  {
    if Tail(tail) && tail != "^" {
      assert tail[..1] == "/";
      forall i | 0 <= i < |tail| ensures PathChar(tail[i]) { assert tail[i] in tail; }
    }
    if ValidPath(tail) {
      forall c | c in tail ensures ('a' <= c <= 'z') || ('A' <= c <= 'Z') || ('0' <= c <= '9') || c in "/._%~:@!&=+-" {
        var i :| 0 <= i < |tail| && tail[i] == c;
        assert PathChar(tail[i]);
        if !IsAlnum(c) { PathMark(c); }
      }
    }
  }

  lemma PathMark(c: char)
    requires c in ['/', '.', '_', '%', '~', ':', '@', '!', '&', '=', '+', '-']
    ensures c in "/._%~:@!&=+-"
  {
    var s := "/._%~:@!&=+-";
    assert s[0] == '/' && s[1] == '.' && s[2] == '_' && s[3] == '%' && s[4] == '~' && s[5] == ':' && s[6] == '@' && s[7] == '!'
           && s[8] == '&' && s[9] == '=' && s[10] == '+' && s[11] == '-';
  }

  lemma AnchoredReads(host: string, tail: string)
    requires HostValid(host) && Tail(tail)
    ensures HostAndSuffix(host + tail) == Some((host, tail))
  {
    var s := host + tail;
    HostChars(host);
    TailChars(tail);
    PathReads(tail);
    if tail == "^" {
      assert s[|s| - 1..] == "^" && s[..|s| - 1] == host;
    } else {
      assert s[|s| - 1] in tail;
      assert s[|s| - 1..][0] == s[|s| - 1];
      assert '/' !in host && s[..|host|] == host && s[|host|..] == tail;
      IndexOfIs(s, '/', |host|);
    }
  }

  lemma AnchoredParts(anchored: string)
    requires HostAndSuffix(anchored).Some? && HostValid(HostAndSuffix(anchored).value.0)
    ensures var cut := HostAndSuffix(anchored).value; anchored == cut.0 + cut.1 && Tail(cut.1)
  {
    var cut := HostAndSuffix(anchored).value;
    if EndsWith(anchored, "^") {
      assert anchored == anchored[..|anchored| - 1] + anchored[|anchored| - 1..];
    } else {
      assert cut.1[..1] == "/" && cut.1[0] == '/';
      IndexOfBounds(anchored, '/');
      PathReads(cut.1);
    }
  }

  /** A pattern is read exactly when it is a host with such a tail, whose host is lower-cased. */
  lemma PatternReads(pattern: string, exception: bool, thirdParty: bool, normal: string)
    ensures ParsePattern(pattern, exception, thirdParty) == Some(Network(normal, exception, thirdParty))
            <==> exists host, tail :: HostValid(host) && Tail(tail) && pattern == "||" + (host + tail)
                                      && normal == "||" + Lower(host) + tail
  {
    if ParsePattern(pattern, exception, thirdParty) == Some(Network(normal, exception, thirdParty)) {
      AnchoredParts(pattern[2..]);
      var cut := HostAndSuffix(pattern[2..]).value;
      assert pattern == pattern[..2] + pattern[2..];
      assert pattern == "||" + (cut.0 + cut.1);
    }
    if host, tail :| HostValid(host) && Tail(tail) && pattern == "||" + (host + tail) && normal == "||" + Lower(host) + tail {
      AnchoredReads(host, tail);
      assert pattern[..2] == "||" && pattern[2..] == host + tail;
    }
  }

  lemma PatternKeeps(pattern: string, exception: bool, thirdParty: bool)
    ensures ParsePattern(pattern, exception, thirdParty).Some? ==>
              var r := ParsePattern(pattern, exception, thirdParty).value;
              r.Network? && r.exception == exception && r.thirdParty == thirdParty
  {
  }

  /** The mark and the modifier around a pattern. */
  lemma MarkReads(raw: string, exception: bool, body: string)
    requires raw == Mark(exception) + body && !StartsWith(body, "@@")
    ensures StartsWith(raw, "@@") == exception && StripPrefix(raw, "@@") == body
  {
    if exception { assert raw[..2] == "@@" && raw[2..] == body; } else { assert raw == body; }
  }

  lemma MarkParts(raw: string)
    ensures raw == Mark(StartsWith(raw, "@@")) + StripPrefix(raw, "@@")
  {
    if StartsWith(raw, "@@") { assert raw == raw[..2] + raw[2..]; }
  }

  lemma ModifierReads(pattern: string, thirdParty: bool)
    requires '$' !in pattern
    ensures SplitOnce(pattern + Modifier(thirdParty), "$") == if thirdParty then Some((pattern, "third-party")) else None
  {
    if thirdParty {
      assert Modifier(true) == "$" + "third-party";
      assert pattern + ("$" + "third-party") == pattern + "$" + "third-party";
      SplitOnceAt(pattern, "$", "third-party");
    } else {
      assert pattern + "" == pattern;
      NotContained(pattern, "$", '$');
    }
  }

  lemma ModifierParts(body: string)
    ensures match SplitOnce(body, "$")
            case Some(cut) => cut.1 == "third-party" ==> body == cut.0 + Modifier(true)
            case None => body == body + Modifier(false)
  {
    if SplitOnce(body, "$").Some? {
      SplitOnceJoins(body, "$");
      var cut := SplitOnce(body, "$").value;
      assert Modifier(true) == "$" + "third-party";
      assert cut.0 + "$" + cut.1 == cut.0 + ("$" + cut.1);
    }
  }

  lemma NetLineChars(host: string, tail: string, thirdParty: bool)
    requires HostValid(host) && Tail(tail)
    ensures var pattern := "||" + (host + tail);
            '$' !in pattern && '#' !in pattern + Modifier(thirdParty) && pattern + Modifier(thirdParty) != ""
            && (pattern + Modifier(thirdParty))[0] == '|'
  {
    HostChars(host);
    TailChars(tail);
  }

  lemma NetLineRead(raw: string, exception: bool, host: string, tail: string, thirdParty: bool)
    requires NetLine(raw, exception, host, tail, thirdParty)
    ensures ParseNetwork(raw) == Some(Network("||" + Lower(host) + tail, exception, thirdParty))
    ensures '#' !in raw && !IgnoredLine(raw)
  {
    var pattern := "||" + (host + tail);
    NetLineChars(host, tail, thirdParty);
    var body := pattern + Modifier(thirdParty);
    assert body[0] == '|' && '#' !in Mark(exception);
    MarkReads(raw, exception, body);
    BodyReads(host, tail, exception, thirdParty);
    NotIgnored(raw, exception, body);
  }

  lemma BodyReads(host: string, tail: string, exception: bool, thirdParty: bool)
    requires HostValid(host) && Tail(tail)
    ensures var pattern := "||" + (host + tail);
            && SplitOnce(pattern + Modifier(thirdParty), "$") == (if thirdParty then Some((pattern, "third-party")) else None)
            && pattern + Modifier(false) == pattern
            && ParsePattern(pattern, exception, thirdParty) == Some(Network("||" + Lower(host) + tail, exception, thirdParty))
  {
    var pattern := "||" + (host + tail);
    NetLineChars(host, tail, thirdParty);
    ModifierReads(pattern, thirdParty);
    PatternReads(pattern, exception, thirdParty, "||" + Lower(host) + tail);
  }

  lemma NotIgnored(raw: string, exception: bool, body: string)
    requires raw == Mark(exception) + body && body != "" && body[0] == '|'
    ensures !IgnoredLine(raw)
  {
    assert raw[0] == if exception then '@' else '|';
    assert "[Adblock]"[0] == '[' && "[Adblock Plus 2.0]"[0] == '[';
  }

  lemma NetLineParsed(raw: string, normal: string, exception: bool, thirdParty: bool)
    requires ParseNetwork(raw) == Some(Network(normal, exception, thirdParty))
    ensures exists host, tail :: NetLine(raw, exception, host, tail, thirdParty) && normal == "||" + Lower(host) + tail
  {
    var marked, body := StartsWith(raw, "@@"), StripPrefix(raw, "@@");
    MarkParts(raw);
    ModifierParts(body);
    match SplitOnce(body, "$") {
      case Some(cut) =>
        PatternKeeps(cut.0, marked, true);
        PatternReads(cut.0, marked, true, normal);
      case None =>
        PatternKeeps(body, marked, false);
        PatternReads(body, marked, false, normal);
    }
  }

  lemma CosmeticIsNot(scope: string, selector: string)
    ensures ParseCosmetic(scope, selector).Some? ==> ParseCosmetic(scope, selector).value.Cosmetic?
  {
  }

  /** A line adds a network rule exactly when it is a network line. */
  lemma NetLineReads(raw: string, normal: string, exception: bool, thirdParty: bool)
    ensures Network(normal, exception, thirdParty) in LineNetwork(raw)
            <==> exists host, tail :: NetLine(raw, exception, host, tail, thirdParty) && normal == "||" + Lower(host) + tail
  {
    if host, tail :| NetLine(raw, exception, host, tail, thirdParty) && normal == "||" + Lower(host) + tail {
      NetLineRead(raw, exception, host, tail, thirdParty);
      NotContained(raw, "#@#", '#');
      NotContained(raw, "##", '#');
    }
    if Network(normal, exception, thirdParty) in LineNetwork(raw) {
      match SplitOnce(raw, "##") {
        case Some(cut) => CosmeticIsNot(cut.0, cut.1);
        case None => NetLineParsed(raw, normal, exception, thirdParty);
      }
    }
  }

  // What the emitted rules match

  lemma PathGlob(h: string, path: string, tail: string, rest: string)
    requires forall c | c in h :: IsHostChar(c)
    requires Tail(path) && path != "^"
    requires forall c | c in tail :: IsLowerAlnum(c) || c == '-' || c == '.' || c == '_'
    requires rest == [] || rest[0] in {':', '/', '?', '#'}
    ensures UrlFilter.Glob(h + path, tail + rest, false) <==> tail == h && StartsWith(rest, path)
  {
    var s := tail + rest;
    TailChars(path);
    assert '*' !in h && '^' !in h;
    UrlFilter.GlobLiteral(h, path, s, false);
    if StartsWith(s, h) {
      var after := s[|h|..];
      assert path + "" == path && UrlFilter.Glob("", after[..0], false);
      UrlFilter.GlobLiteral(path, "", after, false);
      assert UrlFilter.Glob(path, after, false) <==> StartsWith(after, path);
      if |h| > |tail| {
        UrlFilter.LongPrefix(h, tail, rest);
      } else if |h| < |tail| {
        assert after[0] == tail[|h|] && tail[|h|] in tail;
      } else {
        assert s[..|h|] == tail && after == rest;
      }
    }
    assert (h + rest)[..|h|] == h;
  }

  lemma PathAnchorShape(host: string, path: string)
    requires HostValid(host) && Tail(path) && path != "^"
    ensures var p := "||" + host + path;
            && UrlFilter.AnchorOf(p) == UrlFilter.Domain && UrlFilter.Unanchored(p) == host + path == UrlFilter.Core(p)
            && !EndsWith(host + path, "|")
  {
    var p := "||" + host + path;
    TailChars(path);
    assert p[..2] == "||" && p[2..] == host + path;
    var rest := host + path;
    assert rest[|rest| - 1] == path[|path| - 1] && path[|path| - 1] in path;
    assert rest[|rest| - 1..][0] == rest[|rest| - 1];
  }

  lemma HostLowers(host: string, url: UrlFilter.Url, k: int)
    requires UrlFilter.WellFormed(url) && LabelStart(url.host, k)
    ensures Lower(url.host[k..] + url.rest) == url.host[k..] + Lower(url.rest)
    ensures forall c | c in url.host[k..] :: IsLowerAlnum(c) || c == '-' || c == '.' || c == '_'
  {
    var tail := url.host[k..];
    forall i | 0 <= i < |tail| ensures LowerChar(tail[i]) == tail[i] { assert tail[i] in url.host; }
    assert forall c | c in tail :: c in url.host;
  }

  lemma LowerTail(path: string)
    requires Tail(path) && path != "^"
    ensures Tail(Lower(path)) && Lower(path) != "^"
  {
    var low := Lower(path);
    forall c | c in low ensures ('a' <= c <= 'z') || ('A' <= c <= 'Z') || ('0' <= c <= '9') || c in "/._%~:@!&=+-" {
      var i :| 0 <= i < |low| && low[i] == c;
      assert path[i] in path;
    }
  }

  /** `||host/path` matches exactly the URLs of the host and its subdomains that begin with the path. */
  lemma PathAnchorMatches(host: string, path: string, url: UrlFilter.Url)
    requires HostValid(host) && Tail(path) && path != "^" && UrlFilter.WellFormed(url)
    ensures UrlFilter.Matches("||" + host + path, false, url) <==> Reaches(url, host, path)
  {
    var low := Lower(host);
    LowerHostIsDomain(host);
    HostChars(low);
    LowerTail(path);
    PathAnchorShape(host, path);
    assert Lower(host + path) == low + Lower(path);
    forall k | LabelStart(url.host, k)
      ensures UrlFilter.Glob(low + Lower(path), Lower(url.host[k..] + url.rest), false)
              <==> url.host[k..] == low && StartsWith(Lower(url.rest), Lower(path))
    {
      HostLowers(host, url, k);
      PathGlob(low, Lower(path), url.host[k..], Lower(url.rest));
    }
    MatchesDomainIffSuffix(url.host, low);
  }

  lemma PatternReaches(host: string, tail: string, url: UrlFilter.Url)
    requires HostValid(host) && Tail(tail) && UrlFilter.WellFormed(url)
    ensures UrlFilter.Matches("||" + Lower(host) + tail, false, url) <==> Reaches(url, host, tail)
  {
    LowerHostIsDomain(host);
    LowerTwice(host);
    if tail == "^" {
      UrlFilter.HostAnchorIsSuffixMatch(Lower(host), url);
    } else {
      PathAnchorMatches(Lower(host), tail, url);
    }
  }

  lemma LowerTwice(s: string)
    ensures Lower(Lower(s)) == Lower(s)
  {
  }

  lemma EmittedCondition(pattern: string, exception: bool, thirdParty: bool, hit: Dnr.Hit)
    ensures var r := Emit(Network(pattern, exception, thirdParty));
            && (r.action == if exception then Dnr.Allow else Dnr.Block) && r.priority == (if exception then 2 else 1)
            && (Dnr.Meets(r.condition, hit)
                <==> hit.kind != Dnr.MainFrame && UrlFilter.Matches(pattern, false, hit.url) && (thirdParty ==> hit.thirdParty))
  {
    NetworkMeaning.AllKinds(hit.kind);
    var c := Emit(Network(pattern, exception, thirdParty)).condition;
    PlainMeets(c, hit);
  }

  lemma PlainMeets(c: Dnr.Condition, hit: Dnr.Hit)
    requires c.requestDomains == {} && c.initiators == {} && c.excludedInitiators == {} && c.urlFilter.Some?
    ensures Dnr.Meets(c, hit)
            <==> hit.kind in c.resourceTypes && (c.party.Some? ==> hit.thirdParty == (c.party.value == Dnr.ThirdParty))
                 && UrlFilter.Matches(c.urlFilter.value, c.caseSensitive, hit.url)
  {
  }

  lemma EmittedMeets(host: string, tail: string, exception: bool, thirdParty: bool, hit: Dnr.Hit)
    requires HostValid(host) && Tail(tail) && UrlFilter.WellFormed(hit.url)
    ensures var r := Emit(Network("||" + Lower(host) + tail, exception, thirdParty));
            && (r.action == if exception then Dnr.Allow else Dnr.Block) && r.priority == (if exception then 2 else 1)
            && (Dnr.Meets(r.condition, hit)
                <==> hit.kind != Dnr.MainFrame && Reaches(hit.url, host, tail) && (thirdParty ==> hit.thirdParty))
  {
    PatternReaches(host, tail, hit.url);
    EmittedCondition("||" + Lower(host) + tail, exception, thirdParty, hit);
  }

  // The verdict of a compiled list

  lemma EmittedRules(p: Progress, rules: set<Normalized>, hash: string -> nat, c: Compilation)
    requires Keyed(p, rules) && Compiles(p, hash, c)
    ensures forall x :: x in Controller.RulesOf(c.network) <==> exists r :: r in rules && r.Network? && x == Emit(r)
  {
    forall x | x in Controller.RulesOf(c.network) ensures exists r :: r in rules && r.Network? && x == Emit(r) {
      var i :| 0 <= i < |c.network| && c.network[i].rule == x;
      assert p.keys[i] in p.keys;
      assert Some(x) == EmitKey(p, p.keys[i]);
    }
    forall r | r in rules && r.Network? ensures Emit(r) in Controller.RulesOf(c.network) {
      assert KeyFor(r) in p.keys;
      var i :| 0 <= i < |p.keys| && p.keys[i] == KeyFor(r);
      assert Some(c.network[i].rule) == EmitKey(p, p.keys[i]) == Some(Emit(r));
      assert c.network[i] in c.network;
    }
  }

  lemma RuleFromLine(raws: seq<string>, r: Normalized, q: Dnr.Request)
    requires r in AllNetwork(raws) && r.Network? && Dnr.WellFormed(q) && Dnr.Applies(Emit(r), q)
    ensures exists raw :: raw in raws && Describes(raw, r.exception, q.hit)
    ensures Emit(r).action == (if r.exception then Dnr.Allow else Dnr.Block)
  {
    var raw :| raw in raws && r in LineNetwork(raw);
    NetLineReads(raw, r.pattern, r.exception, r.thirdParty);
    var host, tail :| NetLine(raw, r.exception, host, tail, r.thirdParty) && r.pattern == "||" + Lower(host) + tail;
    EmittedMeets(host, tail, r.exception, r.thirdParty, q.hit);
  }

  lemma LineHasRule(raws: seq<string>, raw: string, exception: bool, q: Dnr.Request) returns (r: Normalized)
    requires raw in raws && Describes(raw, exception, q.hit) && Dnr.WellFormed(q)
    ensures r in AllNetwork(raws) && r.Network? && r.exception == exception && Dnr.Applies(Emit(r), q)
  {
    var host, tail, thirdParty :| NetLine(raw, exception, host, tail, thirdParty) && Reaches(q.hit.url, host, tail)
                                  && (thirdParty ==> q.hit.thirdParty);
    r := Network("||" + Lower(host) + tail, exception, thirdParty);
    NetLineReads(raw, r.pattern, exception, thirdParty);
    EmittedMeets(host, tail, exception, thirdParty, q.hit);
  }

  ghost predicate SomeLine(raws: seq<string>, exception: bool, q: Dnr.Request) {
    exists raw :: raw in raws && Describes(raw, exception, q.hit)
  }

  lemma RulesByLines(raws: seq<string>, rules: set<Dnr.Rule>, exception: bool, q: Dnr.Request)
    requires Dnr.WellFormed(q)
    requires forall x :: x in rules <==> exists r :: r in AllNetwork(raws) && r.Network? && x == Emit(r)
    ensures SomeLine(raws, exception, q)
            <==> exists x :: x in rules && x.action == (if exception then Dnr.Allow else Dnr.Block) && Dnr.Applies(x, q)
  {
    if SomeLine(raws, exception, q) {
      var raw :| raw in raws && Describes(raw, exception, q.hit);
      var r := LineHasRule(raws, raw, exception, q);
      assert Emit(r) in rules;
    }
    if x :| x in rules && x.action == (if exception then Dnr.Allow else Dnr.Block) && Dnr.Applies(x, q) {
      var r :| r in AllNetwork(raws) && r.Network? && x == Emit(r);
      RuleFromLine(raws, r, q);
    }
  }

  lemma EmittedShapely(rules: set<Dnr.Rule>, all: set<Normalized>)
    requires forall x :: x in rules <==> exists r :: r in all && r.Network? && x == Emit(r)
    ensures SubscriptionSafety.Shapely(rules) && forall x | x in rules :: x.action != Dnr.AllowAllRequests
  {
  }

  /** A compiled local list blocks exactly the requests that some plain line describes and no exception
      line does, and lets through exactly those that some exception line describes. */
  lemma LocalVerdict(text: string, source: string, hash: string -> nat, c: Compilation, q: Dnr.Request)
    requires Compiles(Scan(Raws(text), source), hash, c) && Dnr.WellFormed(q)
    ensures var raws, verdict := Raws(text), Dnr.Decide(Controller.RulesOf(c.network), q);
            && (verdict == Dnr.Blocked <==> SomeLine(raws, false, q) && !SomeLine(raws, true, q))
            && (verdict == Dnr.Allowed <==> SomeLine(raws, true, q))
  {
    var raws, rules := Raws(text), Controller.RulesOf(c.network);
    ScanKeyed(raws, source);
    EmittedRules(Scan(raws, source), AllNetwork(raws), hash, c);
    EmittedShapely(rules, AllNetwork(raws));
    RulesByLines(raws, rules, false, q);
    RulesByLines(raws, rules, true, q);
    SubscriptionSafety.BlockedMeans(rules, q);
    VerdictOf(rules, q);
  }

  lemma VerdictOf(rules: set<Dnr.Rule>, q: Dnr.Request)
    requires SubscriptionSafety.Shapely(rules) && forall x | x in rules :: x.action != Dnr.AllowAllRequests
    ensures Dnr.Decide(rules, q) == Dnr.Allowed <==> exists x :: x in rules && x.action == Dnr.Allow && Dnr.Applies(x, q)
  {
    SubscriptionSafety.BlockedMeans(rules, q);
    if x :| x in rules && x.action == Dnr.Allow && Dnr.Applies(x, q) {}
  }

  // Hiding lines

  /** A scope of plain hosts, at most 200 of them. */
  predicate LocalScope(scope: string) {
    scope == "" || ((forall e | e in Split(scope, ',') :: HostValid(e)) && |LowerAll(Split(scope, ','))| <= 200)
  }

  /** The text of a line asks to hide the selector on the host. */
  ghost predicate AsksToHide(raw: string, selector: string, host: string) {
    && !IgnoredLine(raw) && !Contains(raw, "#@#")
    && exists scope, own ::
         && SplitOnce(raw, "##") == Some((scope, own))
         && ValidSelector(own) && Canonical(own) == selector && LocalScope(scope)
         && (scope == "" || exists e :: e in Split(scope, ',') && MatchesDomain(host, Lower(e)))
  }

  ghost predicate Covers(domains: set<string>, host: string) {
    domains == {} || exists d :: d in domains && MatchesDomain(host, d)
  }

  lemma CosmeticReads(scope: string, own: string, selector: string, host: string)
    ensures (exists domains :: ParseCosmetic(scope, own) == Some(Cosmetic(domains, selector)) && Covers(domains, host))
            <==> ValidSelector(own) && Canonical(own) == selector && LocalScope(scope)
                 && (scope == "" || exists e :: e in Split(scope, ',') && MatchesDomain(host, Lower(e)))
  {
    var parts := Split(scope, ',');
    if ValidSelector(own) && LocalScope(scope) {
      var domains := if scope == "" then {} else LowerAll(parts);
      assert ParseCosmetic(scope, own) == Some(Cosmetic(domains, Canonical(own)));
      if scope != "" {
        ScopeCovers(parts, host);
      }
    }
  }

  lemma ScopeCovers(parts: seq<string>, host: string)
    requires parts != []
    ensures Covers(LowerAll(parts), host) <==> exists e :: e in parts && MatchesDomain(host, Lower(e))
  {
    assert Lower(parts[0]) in LowerAll(parts);
    if e :| e in parts && MatchesDomain(host, Lower(e)) { assert Lower(e) in LowerAll(parts); }
  }

  /** The hiding rule a line asks for, if any. */
  function ParsedHide(raw: string): Option<Normalized> {
    if IgnoredLine(raw) || ParseRule(raw).None? || ParseRule(raw).value.Network? then None else ParseRule(raw)
  }

  lemma HideReads(raw: string, selector: string, host: string)
    ensures AsksToHide(raw, selector, host)
            <==> exists domains :: ParsedHide(raw) == Some(Cosmetic(domains, selector)) && Covers(domains, host)
  {
    match SplitOnce(raw, "##") {
      case Some(cut) => CosmeticReads(cut.0, cut.1, selector, host);
      case None => NetworkIsNot(raw);
    }
    if !IgnoredLine(raw) && !Contains(raw, "#@#") && SplitOnce(raw, "##").Some? {
      CutHide(raw, SplitOnce(raw, "##").value.0, SplitOnce(raw, "##").value.1);
    }
  }

  lemma CutHide(raw: string, scope: string, own: string)
    requires !IgnoredLine(raw) && !Contains(raw, "#@#") && SplitOnce(raw, "##") == Some((scope, own))
    ensures ParsedHide(raw) == ParseCosmetic(scope, own)
  {
    CosmeticIsNot(scope, own);
  }

  lemma NetworkIsNot(raw: string)
    ensures ParseNetwork(raw).Some? ==> ParseNetwork(raw).value.Network?
  {
    var marked, body := StartsWith(raw, "@@"), StripPrefix(raw, "@@");
    match SplitOnce(body, "$") {
      case Some(cut) => PatternKeeps(cut.0, marked, true);
      case None => PatternKeeps(body, marked, false);
    }
  }

  ghost predicate HasRule(cosmetics: seq<CosmeticRule>, domains: set<string>, selector: string) {
    exists c :: c in cosmetics && c.domains == domains && c.selector == selector
  }

  ghost predicate SomeHide(raws: seq<string>, domains: set<string>, selector: string) {
    exists raw :: raw in raws && ParsedHide(raw) == Some(Cosmetic(domains, selector))
  }

  lemma AddHides(p: Progress, raw: string, line: nat, source: string, domains: set<string>, selector: string)
    ensures HasRule(AddLine(p, raw, line, source).cosmetics, domains, selector)
            <==> HasRule(p.cosmetics, domains, selector) || ParsedHide(raw) == Some(Cosmetic(domains, selector))
  {
    if !IgnoredLine(raw) { AddParsedHides(p, raw, line, source, ParseRule(raw), domains, selector); }
  }

  lemma AddParsedHides(p: Progress, raw: string, line: nat, source: string, parsed: Option<Normalized>,
                       domains: set<string>, selector: string)
    ensures HasRule(AddParsed(p, raw, line, source, parsed).cosmetics, domains, selector)
            <==> HasRule(p.cosmetics, domains, selector) || parsed == Some(Cosmetic(domains, selector))
  {
    if parsed.Some? && parsed.value.Cosmetic? {
      var more := p.cosmetics + [CosmeticRule(parsed.value.domains, parsed.value.selector, raw, source)];
      assert more[|p.cosmetics|] in more;
      assert forall c :: c in more <==> c in p.cosmetics || c == more[|p.cosmetics|];
    }
  }

  lemma {:induction false} ScanHides(raws: seq<string>, source: string, domains: set<string>, selector: string)
    ensures HasRule(Scan(raws, source).cosmetics, domains, selector) <==> SomeHide(raws, domains, selector)
  {
    if raws != [] {
      var front, last := raws[..|raws| - 1], raws[|raws| - 1];
      ScanHides(front, source, domains, selector);
      AddHides(Scan(front, source), last, |raws|, source, domains, selector);
      assert forall raw :: raw in raws <==> raw in front || raw == last;
    }
  }

  /** A compiled local list hides a selector on exactly the hosts for which some line asks for it. */
  lemma LocalHidden(text: string, source: string, hash: string -> nat, c: Compilation, selector: string, host: string)
    requires Compiles(Scan(Raws(text), source), hash, c)
    ensures (exists item :: item in c.cosmetics && item.selector == selector && Covers(item.domains, host))
            <==> exists raw :: raw in Raws(text) && AsksToHide(raw, selector, host)
  {
    var raws := Raws(text);
    if item :| item in c.cosmetics && item.selector == selector && Covers(item.domains, host) {
      ScanHides(raws, source, item.domains, selector);
      var raw :| raw in raws && ParsedHide(raw) == Some(Cosmetic(item.domains, selector));
      HideReads(raw, selector, host);
    }
    if raw :| raw in raws && AsksToHide(raw, selector, host) {
      HideReads(raw, selector, host);
      var domains :| ParsedHide(raw) == Some(Cosmetic(domains, selector)) && Covers(domains, host);
      ScanHides(raws, source, domains, selector);
    }
  }
}
