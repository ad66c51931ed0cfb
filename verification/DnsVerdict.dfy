/** The compiled DNS policy, its decisions, and what they mean line by line. */
module DnsVerdict {
  import opened Text
  import opened Hosts
  import opened DnsPolicy
  import opened DnsText
  import opened DnsCompile

  datatype SourceReport = SourceReport(
    name: string, counts: Counts, candidates: nat, effective: nat, listAllows: nat)

  datatype Compiled = Compiled(policy: Policy, report: Report, sources: seq<SourceReport>)

  function Normalized(hosts: seq<string>): seq<Option<string>> { MapSeq(hosts, Normalize) }

  function Start(userAllow: seq<string>, userBlock: seq<string>): Policy {
    NoLists(UserTable(Normalized(userAllow), "user allow"), UserTable(Normalized(userBlock), "user block"))
  }

  ghost predicate Accepts(sources: seq<Source>, userAllow: seq<string>, userBlock: seq<string>) {
    GoodSources(sources) && GoodHosts(Normalized(userAllow)) && GoodHosts(Normalized(userBlock))
  }

  ghost predicate Reports(p: Policy, source: Source, r: SourceReport) {
    && r.name == source.name
    && r.counts == CountAll(EntriesOf(source.name, RawLines(source)))
    && r.candidates == |HostsFrom(p.listBlock, source.name)|
    && r.effective == (if p.suppressed then 0 else r.candidates)
    && r.listAllows == |HostsFrom(p.listAllow, source.name)|
  }

  ghost predicate Meets(sources: seq<Source>, userAllow: seq<string>, userBlock: seq<string>, c: Compiled) {
    && ScanOf(Start(userAllow, userBlock), Entries(sources)) == Scan(c.policy, c.report)
    && |c.sources| == |sources|
    && forall i | 0 <= i < |sources| :: Reports(c.policy, sources[i], c.sources[i])
  }

  /** `DnsPolicy::compile`. */
  method CompilePolicy(sources: seq<Source>, userAllow: seq<string>, userBlock: seq<string>)
    returns (r: Option<Compiled>)
    ensures r.Some? <==> Accepts(sources, userAllow, userBlock)
    ensures r.Some? ==> Meets(sources, userAllow, userBlock, r.value)
  {
    CheckedSources(sources);
    if |sources| > MAX_SOURCES {
      return None;
    }
    var good := CheckSources(MapSeq(sources, CheckOf));
    if !good {
      return None;
    }
    var allowed := CompileUserHosts(Normalized(userAllow), "user allow");
    if allowed == None {
      return None;
    }
    var blocked := CompileUserHosts(Normalized(userBlock), "user block");
    if blocked == None {
      return None;
    }
    var compiled := ScanSources(sources, NoLists(allowed.value, blocked.value));
    assert NoLists(allowed.value, blocked.value) == Start(userAllow, userBlock);
    return Some(compiled);
  }

  ghost predicate CountsAre(sources: seq<Source>, counts: seq<Counts>) {
    && |counts| == |sources|
    && forall i | 0 <= i < |sources| :: counts[i] == CountAll(EntriesOf(sources[i].name, RawLines(sources[i])))
  }

  method ScanSources(sources: seq<Source>, start: Policy) returns (c: Compiled)
    requires Distinct(NamesOf(sources))
    ensures ScanOf(start, Entries(sources)) == Scan(c.policy, c.report)
    ensures |c.sources| == |sources|
    ensures forall i | 0 <= i < |sources| :: Reports(c.policy, sources[i], c.sources[i])
  {
    var scan := ScanOf(start, []);
    var counts: seq<Counts> := [];
    for i := 0 to |sources|
      invariant scan == ScanOf(start, Entries(sources[..i])) && CountsAre(sources[..i], counts)
    {
      var entries := EntriesOf(sources[i].name, RawLines(sources[i]));
      assert sources[..i + 1] == sources[..i] + [sources[i]];
      EntriesSnoc(sources[..i], sources[i]);
      var counted;
      scan, counted := ScanSource(start, Entries(sources[..i]), scan, entries);
      counts := counts + [counted];
    }
    assert sources[..|sources|] == sources;
    var names := NamesOf(sources);
    var candidates := Attribute(scan.policy.listBlock, names);
    var listAllows := Attribute(scan.policy.listAllow, names);
    c := Compiled(scan.policy, scan.report, SourceReports(names, counts, candidates, listAllows, scan.policy.suppressed));
    ReportsHold(scan.policy, sources, counts, candidates, listAllows);
  }

  function SourceReports(names: seq<string>, counts: seq<Counts>, candidates: seq<nat>, listAllows: seq<nat>,
                         suppressed: bool): (r: seq<SourceReport>)
    requires |names| == |counts| == |candidates| == |listAllows|
    ensures |r| == |names|
  {
    seq(|names|, i requires 0 <= i < |names| =>
      SourceReport(names[i], counts[i], candidates[i], if suppressed then 0 else candidates[i], listAllows[i]))
  }

  lemma ReportsHold(p: Policy, sources: seq<Source>, counts: seq<Counts>, candidates: seq<nat>, listAllows: seq<nat>)
    requires CountsAre(sources, counts) && |candidates| == |listAllows| == |sources|
    requires forall i | 0 <= i < |sources| ::
               candidates[i] == |HostsFrom(p.listBlock, NamesOf(sources)[i])|
               && listAllows[i] == |HostsFrom(p.listAllow, NamesOf(sources)[i])|
    ensures var r := SourceReports(NamesOf(sources), counts, candidates, listAllows, p.suppressed);
            forall i | 0 <= i < |sources| :: Reports(p, sources[i], r[i])
  {
    forall i | 0 <= i < |sources|
      ensures Reports(p, sources[i], SourceReports(NamesOf(sources), counts, candidates, listAllows, p.suppressed)[i])
    {
      assert NamesOf(sources)[i] == sources[i].name;
    }
  }

  lemma EntriesSnoc(sources: seq<Source>, s: Source)
    ensures Entries(sources + [s]) == Entries(sources) + EntriesOf(s.name, RawLines(s))
  {
    assert (sources + [s])[..|sources|] == sources;
  }

  // Decisions

  datatype Decision = Decision(blocked: bool, rule: Option<Matched>)

  function Lookup(rules: HostRules, host: string): Option<Matched> { Stored(rules, SuffixMatch(rules.Keys, host)) }

  /** `decide`. */
  function Decide(p: Policy, hostname: string): Decision {
    match Normalize(hostname)
    case None => Decision(false, None)
    case Some(host) =>
      if Lookup(p.userAllow, host).Some? then Decision(false, Lookup(p.userAllow, host))
      else if Lookup(p.userBlock, host).Some? then Decision(true, Lookup(p.userBlock, host))
      else if Lookup(p.listAllow, host).Some? then Decision(false, Lookup(p.listAllow, host))
      else if !p.suppressed && Lookup(p.listBlock, host).Some? then Decision(true, Lookup(p.listBlock, host))
      else Decision(false, None)
  }

  lemma LookupCovers(rules: HostRules, host: string)
    ensures Lookup(rules, host).Some? <==> Covered(rules.Keys, host)
  {
    SuffixMatchLongest(rules.Keys, host);
  }

  // The meaning of the lists, line by line

  ghost predicate HasLine(sources: seq<Source>, raw: string) {
    exists i :: 0 <= i < |sources| && raw in RawLines(sources[i])
  }

  ghost predicate ListBlocks(sources: seq<Source>, host: string) {
    exists raw, rule :: HasLine(sources, raw) && UnconditionalForm(raw, false, rule) && MatchesDomain(host, rule)
  }

  ghost predicate ListAllows(sources: seq<Source>, host: string) {
    exists raw, rule ::
      HasLine(sources, raw) && (UnconditionalForm(raw, true, rule) || Protects(raw, rule)) && MatchesDomain(host, rule)
  }

  ghost predicate ListsSuppressed(sources: seq<Source>) {
    exists raw :: HasLine(sources, raw) && Suppresses(raw)
  }

  function UserHosts(hosts: seq<string>): set<string> {
    set h | h in hosts && Normalize(h).Some? :: Normalize(h).value
  }

  ghost predicate ShouldBlock(sources: seq<Source>, userAllow: seq<string>, userBlock: seq<string>, host: string) {
    && !Covered(UserHosts(userAllow), host)
    && (Covered(UserHosts(userBlock), host)
        || (ListBlocks(sources, host) && !ListAllows(sources, host) && !ListsSuppressed(sources)))
  }

  // From entries to lines

  lemma NamesGrow(front: seq<Source>, last: Source)
    ensures NamesOf(front + [last]) == NamesOf(front) + [last.name]
  {
  }

  lemma HasLineGrows(front: seq<Source>, last: Source, raw: string)
    ensures HasLine(front + [last], raw) <==> HasLine(front, raw) || raw in RawLines(last)
  {
    var all := front + [last];
    if HasLine(front, raw) {
      var k :| 0 <= k < |front| && raw in RawLines(front[k]);
      assert all[k] == front[k];
    }
    assert all[|front|] == last;
  }

  lemma EntryAt(name: string, raws: seq<string>, k: nat)
    requires k < |raws|
    ensures var e := EntriesOf(name, raws)[k];
            e.line == Classify(e.raw) && e.raw == raws[k] && e.raw in raws && e.source == name
  {
  }

  lemma {:induction false} EntriesClassified(sources: seq<Source>, i: nat)
    requires i < |Entries(sources)|
    ensures Entries(sources)[i].line == Classify(Entries(sources)[i].raw)
    ensures HasLine(sources, Entries(sources)[i].raw)
    ensures Entries(sources)[i].source in NamesOf(sources)
  {
    var front, last := sources[..|sources| - 1], sources[|sources| - 1];
    assert sources == front + [last];
    NamesGrow(front, last);
    if i < |Entries(front)| {
      EntriesClassified(front, i);
      HasLineGrows(front, last, Entries(front)[i].raw);
    } else {
      EntryAt(last.name, RawLines(last), i - |Entries(front)|);
      HasLineGrows(front, last, RawLines(last)[i - |Entries(front)|]);
    }
  }

  lemma {:induction false} LineHasEntry(sources: seq<Source>, raw: string) returns (i: nat)
    requires HasLine(sources, raw)
    ensures i < |Entries(sources)| && Entries(sources)[i].raw == raw
  {
    var front, last := sources[..|sources| - 1], sources[|sources| - 1];
    assert sources == front + [last];
    HasLineGrows(front, last, raw);
    if raw in RawLines(last) {
      var j :| 0 <= j < |RawLines(last)| && RawLines(last)[j] == raw;
      EntryAt(last.name, RawLines(last), j);
      i := |Entries(front)| + j;
    } else {
      i := LineHasEntry(front, raw);
    }
  }

  /** The tables cover a host exactly when some line does. */
  lemma BlocksCovered(sources: seq<Source>, p: Policy, host: string)
    requires ListsHold(p, Entries(sources))
    ensures Covered(p.listBlock.Keys, host) <==> ListBlocks(sources, host)
  {
    var entries := Entries(sources);
    if Covered(p.listBlock.Keys, host) {
      var rule :| rule in p.listBlock && MatchesDomain(host, rule);
      var i :| First(entries, i, rule, SaysBlock);
      EntriesClassified(sources, i);
      BlockLineShape(entries[i].raw, rule);
      assert HasLine(sources, entries[i].raw);
    }
    if ListBlocks(sources, host) {
      var raw, rule :| HasLine(sources, raw) && UnconditionalForm(raw, false, rule) && MatchesDomain(host, rule);
      BlockLineShape(raw, rule);
      var i := LineHasEntry(sources, raw);
      EntriesClassified(sources, i);
      assert SaysBlock(entries[i].line, rule);
    }
  }

  lemma AllowsCovered(sources: seq<Source>, p: Policy, host: string)
    requires ListsHold(p, Entries(sources))
    ensures Covered(p.listAllow.Keys, host) <==> ListAllows(sources, host)
  {
    var entries := Entries(sources);
    if Covered(p.listAllow.Keys, host) {
      var rule :| rule in p.listAllow && MatchesDomain(host, rule);
      var i :| First(entries, i, rule, SaysAllow);
      EntriesClassified(sources, i);
      var raw := entries[i].raw;
      AllowLineShape(raw, rule);
      ProtectLineShape(raw, rule);
      assert HasLine(sources, raw);
    }
    if ListAllows(sources, host) {
      var raw, rule :| HasLine(sources, raw) && (UnconditionalForm(raw, true, rule) || Protects(raw, rule))
                       && MatchesDomain(host, rule);
      AllowLineShape(raw, rule);
      ProtectLineShape(raw, rule);
      var i := LineHasEntry(sources, raw);
      EntriesClassified(sources, i);
      assert SaysAllow(entries[i].line, rule);
    }
  }

  lemma SuppressionAgrees(sources: seq<Source>, p: Policy)
    requires ListsHold(p, Entries(sources))
    ensures p.suppressed <==> ListsSuppressed(sources)
  {
    var entries := Entries(sources);
    if p.suppressed {
      var i :| 0 <= i < |entries| && entries[i].line == Suppress;
      EntriesClassified(sources, i);
      SuppressLineShape(entries[i].raw);
    }
    if ListsSuppressed(sources) {
      var raw :| HasLine(sources, raw) && Suppresses(raw);
      SuppressLineShape(raw);
      var i := LineHasEntry(sources, raw);
      EntriesClassified(sources, i);
      assert entries[i].line == Suppress;
    }
  }

  lemma UserTableHosts(hosts: seq<string>, name: string)
    ensures UserTable(Normalized(hosts), name).Keys == UserHosts(hosts)
  {
    var all := Normalized(hosts);
    forall h | h in UserHosts(hosts) ensures h in UserTable(all, name) {
      var i :| 0 <= i < |hosts| && Normalize(hosts[i]) == Some(h);
      assert all[i] == Some(h);
    }
  }

  lemma MeetsHolds(sources: seq<Source>, userAllow: seq<string>, userBlock: seq<string>, c: Compiled)
    requires Meets(sources, userAllow, userBlock, c)
    ensures ListsHold(c.policy, Entries(sources))
    ensures c.policy.userAllow.Keys == UserHosts(userAllow) && c.policy.userBlock.Keys == UserHosts(userBlock)
  {
    var start := Start(userAllow, userBlock);
    FoldHolds(start.userAllow, start.userBlock, Entries(sources));
    FoldKeepsUsers(start, Entries(sources));
    UserTableHosts(userAllow, "user allow");
    UserTableHosts(userBlock, "user block");
  }

  /** A host is blocked exactly when the lines and the users' hosts say so. */
  lemma DecisionRefinesLines(sources: seq<Source>, userAllow: seq<string>, userBlock: seq<string>, c: Compiled,
                             hostname: string)
    requires Meets(sources, userAllow, userBlock, c)
    ensures Decide(c.policy, hostname).blocked
            <==> Normalize(hostname).Some? && ShouldBlock(sources, userAllow, userBlock, Normalize(hostname).value)
  {
    MeetsHolds(sources, userAllow, userBlock, c);
    if Normalize(hostname).Some? {
      var host := Normalize(hostname).value;
      LookupCovers(c.policy.userAllow, host);
      LookupCovers(c.policy.userBlock, host);
      LookupCovers(c.policy.listAllow, host);
      LookupCovers(c.policy.listBlock, host);
      BlocksCovered(sources, c.policy, host);
      AllowsCovered(sources, c.policy, host);
      SuppressionAgrees(sources, c.policy);
    }
  }

  /** Entry `i` is the first to block `rule`, the longest blocked suffix of the host. */
  ghost predicate Reason(rules: HostRules, entries: seq<Entry>, host: string, i: int, rule: string) {
    && First(entries, i, rule, SaysBlock) && MatchesDomain(host, rule)
    && forall other | other in rules && MatchesDomain(host, other) :: |other| <= |rule|
  }

  lemma LookupReason(rules: HostRules, entries: seq<Entry>, host: string) returns (i: nat, rule: string)
    requires Tabulates(rules, entries, SaysBlock) && Lookup(rules, host).Some?
    ensures Reason(rules, entries, host, i, rule) && Lookup(rules, host) == Some(RuleOf(entries[i]))
  {
    SuffixMatchLongest(rules.Keys, host);
    rule := SuffixMatch(rules.Keys, host).value;
    i :| First(entries, i, rule, SaysBlock) && rules[rule] == RuleOf(entries[i]);
  }

  /** The rule reported for a list block is the first line that names the longest blocked suffix. */
  lemma BlockProvenance(sources: seq<Source>, userAllow: seq<string>, userBlock: seq<string>, c: Compiled,
                        hostname: string, host: string)
    requires Meets(sources, userAllow, userBlock, c) && Normalize(hostname) == Some(host)
    requires Decide(c.policy, hostname).blocked && !Covered(UserHosts(userBlock), host)
    ensures exists i, rule ::
              Reason(c.policy.listBlock, Entries(sources), host, i, rule)
              && Decide(c.policy, hostname).rule == Some(RuleOf(Entries(sources)[i]))
  {
    MeetsHolds(sources, userAllow, userBlock, c);
    LookupCovers(c.policy.userBlock, host);
    var i, rule := LookupReason(c.policy.listBlock, Entries(sources), host);
  }

  // Order, and adding lines

  ghost predicate SameLines(a: seq<Source>, b: seq<Source>) { forall raw :: HasLine(a, raw) <==> HasLine(b, raw) }

  /** Verdicts ignore the order and repetition of lines, sources and users' hosts. */
  lemma OrderIrrelevant(a: seq<Source>, b: seq<Source>, allowA: seq<string>, allowB: seq<string>,
                        blockA: seq<string>, blockB: seq<string>, x: Compiled, y: Compiled, hostname: string)
    requires Meets(a, allowA, blockA, x) && Meets(b, allowB, blockB, y)
    requires SameLines(a, b) && UserHosts(allowA) == UserHosts(allowB) && UserHosts(blockA) == UserHosts(blockB)
    ensures Decide(x.policy, hostname).blocked == Decide(y.policy, hostname).blocked
  {
    DecisionRefinesLines(a, allowA, blockA, x, hostname);
    DecisionRefinesLines(b, allowB, blockB, y, hostname);
    if Normalize(hostname).Some? {
      SameShould(a, b, allowA, allowB, blockA, blockB, Normalize(hostname).value);
      SameShould(b, a, allowB, allowA, blockB, blockA, Normalize(hostname).value);
    }
  }

  lemma FewerAllows(fewer: seq<Source>, more: seq<Source>, host: string)
    requires forall raw :: HasLine(fewer, raw) ==> HasLine(more, raw)
    ensures ListAllows(fewer, host) ==> ListAllows(more, host)
    ensures ListBlocks(fewer, host) ==> ListBlocks(more, host)
    ensures ListsSuppressed(fewer) ==> ListsSuppressed(more)
  {
    if ListAllows(fewer, host) {
      var raw, rule :| HasLine(fewer, raw) && (UnconditionalForm(raw, true, rule) || Protects(raw, rule))
                       && MatchesDomain(host, rule);
      assert HasLine(more, raw);
    }
    if ListBlocks(fewer, host) {
      var raw, rule :| HasLine(fewer, raw) && UnconditionalForm(raw, false, rule) && MatchesDomain(host, rule);
      assert HasLine(more, raw);
    }
    if ListsSuppressed(fewer) {
      var raw :| HasLine(fewer, raw) && Suppresses(raw);
      assert HasLine(more, raw);
    }
  }

  lemma SameShould(a: seq<Source>, b: seq<Source>, allowA: seq<string>, allowB: seq<string>,
                   blockA: seq<string>, blockB: seq<string>, host: string)
    requires SameLines(a, b) && UserHosts(allowA) == UserHosts(allowB) && UserHosts(blockA) == UserHosts(blockB)
    ensures ShouldBlock(a, allowA, blockA, host) ==> ShouldBlock(b, allowB, blockB, host)
  {
    FewerAllows(a, b, host);
    FewerAllows(b, a, host);
  }

  /** `more` has the lines of `fewer` and further exceptions, badfilters or directives. */
  ghost predicate AddsSaferLines(fewer: seq<Source>, more: seq<Source>) {
    && (forall raw :: HasLine(fewer, raw) ==> HasLine(more, raw))
    && (forall raw :: HasLine(more, raw) ==> HasLine(fewer, raw) || SaferLine(raw))
  }

  lemma SaferBlocks(fewer: seq<Source>, more: seq<Source>, host: string)
    requires AddsSaferLines(fewer, more) && ListBlocks(more, host)
    ensures ListBlocks(fewer, host)
  {
    var raw, rule :| HasLine(more, raw) && UnconditionalForm(raw, false, rule) && MatchesDomain(host, rule);
    BlockLineShape(raw, rule);
    if SaferLine(raw) { SaferLinesDoNotBlock(raw, rule); }
    assert HasLine(fewer, raw);
  }

  lemma SaferShould(fewer: seq<Source>, more: seq<Source>, userAllow: seq<string>, userBlock: seq<string>, host: string)
    requires AddsSaferLines(fewer, more) && ShouldBlock(more, userAllow, userBlock, host)
    ensures ShouldBlock(fewer, userAllow, userBlock, host)
  {
    FewerAllows(fewer, more, host);
    if ListBlocks(more, host) { SaferBlocks(fewer, more, host); }
  }

  /** Adding exceptions, badfilters or `!#` lines never turns an allowed host into a blocked one. */
  lemma SaferLinesNeverBlock(fewer: seq<Source>, more: seq<Source>, userAllow: seq<string>, userBlock: seq<string>,
                             x: Compiled, y: Compiled, hostname: string)
    requires Meets(fewer, userAllow, userBlock, x) && Meets(more, userAllow, userBlock, y)
    requires AddsSaferLines(fewer, more)
    ensures Decide(y.policy, hostname).blocked ==> Decide(x.policy, hostname).blocked
  {
    DecisionRefinesLines(fewer, userAllow, userBlock, x, hostname);
    DecisionRefinesLines(more, userAllow, userBlock, y, hostname);
    if Decide(y.policy, hostname).blocked {
      SaferShould(fewer, more, userAllow, userBlock, Normalize(hostname).value);
    }
  }

  // Conservation

  function Column(c: Compiled, f: SourceReport -> nat): seq<nat> { MapSeq(c.sources, f) }

  function Unsupported(r: SourceReport): nat { r.counts.unsupported }
  function Candidates(r: SourceReport): nat { r.candidates }
  function Allows(r: SourceReport): nat { r.listAllows }

  lemma {:induction false} ChosenConcat(a: seq<Entry>, b: seq<Entry>, kind: Line -> bool)
    ensures Chosen(a + b, kind) == Chosen(a, kind) + Chosen(b, kind)
  {
    if b == [] {
      assert a + b == a;
    } else {
      var n := |b| - 1;
      assert (a + b)[..|a| + n] == a + b[..n] && (a + b)[|a| + n] == b[n];
      ChosenConcat(a, b[..n], kind);
    }
  }

  lemma {:induction false} DiagnosedSum(sources: seq<Source>, unsupported: seq<nat>)
    requires |unsupported| == |sources|
    requires forall i | 0 <= i < |sources| ::
               unsupported[i] == CountAll(EntriesOf(sources[i].name, RawLines(sources[i]))).unsupported
    ensures |Chosen(Entries(sources), Diagnosed)| == Sum(unsupported)
  {
    if sources != [] {
      var n := |sources| - 1;
      var entries := EntriesOf(sources[n].name, RawLines(sources[n]));
      DiagnosedSum(sources[..n], unsupported[..n]);
      ChosenConcat(Entries(sources[..n]), entries, Diagnosed);
      LinesCounted(entries);
    }
  }

  /** Every source's lines are counted once each. */
  lemma SourceLinesCounted(sources: seq<Source>, userAllow: seq<string>, userBlock: seq<string>, c: Compiled, i: nat)
    requires Meets(sources, userAllow, userBlock, c) && i < |sources|
    ensures var k := c.sources[i].counts;
            k.lines == |Lines(sources[i].text)| && k.lines == k.ignored + k.blocks + k.allows + k.unsupported
  {
    LinesCounted(EntriesOf(sources[i].name, RawLines(sources[i])));
  }

  /** Diagnostics count the unsupported lines, and the per-source rule counts add up to the tables. */
  lemma CountsConserved(sources: seq<Source>, userAllow: seq<string>, userBlock: seq<string>, c: Compiled)
    requires Meets(sources, userAllow, userBlock, c) && Distinct(NamesOf(sources))
    ensures Sum(Column(c, Unsupported)) == c.report.diagnostics.total
    ensures Sum(Column(c, Candidates)) == |c.policy.listBlock|
    ensures Sum(Column(c, Allows)) == |c.policy.listAllow|
  {
    MeetsHolds(sources, userAllow, userBlock, c);
    DiagnosedSum(sources, Column(c, Unsupported));
    TableSum(sources, c.policy.listBlock, SaysBlock, Column(c, Candidates));
    TableSum(sources, c.policy.listAllow, SaysAllow, Column(c, Allows));
  }

  lemma TableSum(sources: seq<Source>, rules: HostRules, says: (Line, string) -> bool, counts: seq<nat>)
    requires Tabulates(rules, Entries(sources), says) && Distinct(NamesOf(sources)) && |counts| == |sources|
    requires forall i | 0 <= i < |sources| :: counts[i] == |HostsFrom(rules, sources[i].name)|
    ensures Sum(counts) == |rules|
  {
    var names := NamesOf(sources);
    assert forall i | 0 <= i < |sources| :: names[i] == sources[i].name;
    AttributionSums(rules, names, counts);
    AllNamed(sources, rules, says);
  }

  lemma AllNamed(sources: seq<Source>, rules: HostRules, says: (Line, string) -> bool)
    requires Tabulates(rules, Entries(sources), says)
    ensures |HostsOfAll(rules, NamesOf(sources))| == |rules|
  {
    forall h | h in rules ensures rules[h].source in NamesOf(sources) {
      var i :| First(Entries(sources), i, h, says) && rules[h] == RuleOf(Entries(sources)[i]);
      EntriesClassified(sources, i);
    }
    assert HostsOfAll(rules, NamesOf(sources)) == rules.Keys;
  }
}
