/** `DnsPolicy::compile`: list lines fold into host tables, one suppression flag and a report. */
module DnsCompile {
  import opened Text
  import opened DnsPolicy

  const MAX_SOURCES := 2
  const MAX_SOURCE_BYTES := 8 * 1024 * 1024
  const MAX_SOURCE_LINES := 300_000
  const MAX_USER_HOSTS := 10_000
  const MAX_SOURCE_NAME := 128
  const MAX_DIAGNOSTICS := 200
  const MAX_SUPPRESSION_REASONS := 20
  const MAX_DIAGNOSTIC_RULE := 256

  // Inputs

  datatype Source = Source(name: string, text: string)

  predicate ControlChar(c: char) { c as int < 0x20 || 0x7F <= c as int < 0xA0 }

  predicate GoodName(name: string) {
    Trim(name) != "" && Utf8Len(name) <= MAX_SOURCE_NAME && forall c | c in name :: !ControlChar(c)
  }

  predicate GoodSource(source: Source) {
    && GoodName(source.name) && Utf8Len(source.text) <= MAX_SOURCE_BYTES
    && |Lines(source.text)| <= MAX_SOURCE_LINES
  }

  /** What the first loop asks of one source. */
  datatype Checked = Checked(name: string, good: bool)

  function CheckOf(source: Source): Checked { Checked(source.name, GoodSource(source)) }

  ghost predicate Distinct(names: seq<string>) { forall i, j | 0 <= i < j < |names| :: names[i] != names[j] }

  function NamesOf(sources: seq<Source>): seq<string> { MapSeq(sources, (s: Source) => s.name) }

  ghost predicate GoodSources(sources: seq<Source>) {
    && |sources| <= MAX_SOURCES
    && Distinct(NamesOf(sources))
    && forall i | 0 <= i < |sources| :: GoodSource(sources[i])
  }

  ghost predicate AllChecked(checks: seq<Checked>) {
    && (forall i, j | 0 <= i < j < |checks| :: checks[i].name != checks[j].name)
    && forall i | 0 <= i < |checks| :: checks[i].good
  }

  lemma CheckedSources(sources: seq<Source>)
    ensures GoodSources(sources) <==> |sources| <= MAX_SOURCES && AllChecked(MapSeq(sources, CheckOf))
  {
    var names, checks := NamesOf(sources), MapSeq(sources, CheckOf);
    assert forall i | 0 <= i < |sources| ::
        names[i] == sources[i].name && checks[i] == Checked(sources[i].name, GoodSource(sources[i]));
    assert forall i | 0 <= i < |sources| :: names[i] == checks[i].name;
  }

  /** The first loop of `compile`: it stops at the first repeated name or bad source. */
  method CheckSources(checks: seq<Checked>) returns (good: bool)
    ensures good <==> AllChecked(checks)
  {
    var names: set<string> := {};
    for i := 0 to |checks|
      invariant AllChecked(checks[..i])
      invariant forall name :: name in names <==> exists j :: 0 <= j < i && checks[j].name == name
    {
      if checks[i].name in names || !checks[i].good {
        return false;
      }
      names := names + {checks[i].name};
    }
    assert checks[..|checks|] == checks;
    return true;
  }

  // Lines of a source

  /** A scanned line and what it means. */
  datatype Entry = Entry(source: string, number: nat, raw: string, line: Line)

  function TrimLine(raw: string): string { Trim(TrimStartChar(Trim(raw), 0xFEFF as char)) }

  function RawLines(source: Source): seq<string> { MapSeq(Lines(source.text), TrimLine) }

  function EntriesOf(name: string, raws: seq<string>): (r: seq<Entry>)
    ensures |r| == |raws|
  {
    seq(|raws|, i requires 0 <= i < |raws| => Entry(name, i + 1, raws[i], Classify(raws[i])))
  }

  function Entries(sources: seq<Source>): seq<Entry> {
    if sources == [] then [] else
      var last := sources[|sources| - 1];
      Entries(sources[..|sources| - 1]) + EntriesOf(last.name, RawLines(last))
  }

  // Tables

  datatype Policy = Policy(
    userAllow: HostRules,
    userBlock: HostRules,
    listAllow: HostRules,
    listBlock: HostRules,
    suppressed: bool)

  function RuleOf(e: Entry): Matched {
    Matched(e.source, if e.line.Protect? then Truncate(e.raw, MAX_DIAGNOSTIC_RULE) else e.raw)
  }

  /** `entry(host).or_insert_with`. */
  function OrInsert(rules: HostRules, host: string, rule: Matched): HostRules {
    if host in rules then rules else rules[host := rule]
  }

  function AddEntry(p: Policy, e: Entry): Policy {
    match e.line
    case Block(host) => p.(listBlock := OrInsert(p.listBlock, host, RuleOf(e)))
    case Allow(host) => p.(listAllow := OrInsert(p.listAllow, host, RuleOf(e)))
    case Protect(host) => p.(listAllow := OrInsert(p.listAllow, host, RuleOf(e)))
    case Suppress => p.(suppressed := true)
    case _ => p
  }

  function Fold(start: Policy, entries: seq<Entry>): Policy {
    if entries == [] then start else AddEntry(Fold(start, entries[..|entries| - 1]), entries[|entries| - 1])
  }

  predicate SaysBlock(line: Line, host: string) { line == Block(host) }
  predicate SaysAllow(line: Line, host: string) { line == Allow(host) || line == Protect(host) }

  /** Entry `i` is the first for which `says` holds. */
  ghost predicate First(entries: seq<Entry>, i: int, host: string, says: (Line, string) -> bool) {
    0 <= i < |entries| && says(entries[i].line, host) && forall j | 0 <= j < i :: !says(entries[j].line, host)
  }

  /** The table holds the first line that names each host, and nothing else. */
  ghost predicate Tabulates(rules: HostRules, entries: seq<Entry>, says: (Line, string) -> bool) {
    && (forall h | h in rules :: exists i :: First(entries, i, h, says) && rules[h] == RuleOf(entries[i]))
    && (forall i, h | 0 <= i < |entries| && says(entries[i].line, h) :: h in rules)
  }

  lemma TabulateSkip(rules: HostRules, entries: seq<Entry>, e: Entry, says: (Line, string) -> bool)
    requires Tabulates(rules, entries, says)
    requires forall h :: says(e.line, h) ==> h in rules
    ensures Tabulates(rules, entries + [e], says)
  {
    var all := entries + [e];
    forall h | h in rules ensures exists i :: First(all, i, h, says) && rules[h] == RuleOf(all[i]) {
      var i :| First(entries, i, h, says) && rules[h] == RuleOf(entries[i]);
      assert First(all, i, h, says);
    }
  }

  lemma TabulateNew(rules: HostRules, entries: seq<Entry>, e: Entry, host: string, says: (Line, string) -> bool)
    requires Tabulates(rules, entries, says) && host !in rules
    requires forall h :: says(e.line, h) <==> h == host
    ensures Tabulates(rules[host := RuleOf(e)], entries + [e], says)
  {
    var all, now := entries + [e], rules[host := RuleOf(e)];
    forall h | h in now ensures exists i :: First(all, i, h, says) && now[h] == RuleOf(all[i]) {
      if h == host {
        assert First(all, |entries|, h, says);
      } else {
        var i :| First(entries, i, h, says) && rules[h] == RuleOf(entries[i]);
        assert First(all, i, h, says);
      }
    }
  }

  lemma TabulateInsert(rules: HostRules, entries: seq<Entry>, e: Entry, host: string, says: (Line, string) -> bool)
    requires Tabulates(rules, entries, says)
    requires forall h :: says(e.line, h) <==> h == host
    ensures Tabulates(OrInsert(rules, host, RuleOf(e)), entries + [e], says)
  {
    if host in rules {
      TabulateSkip(rules, entries, e, says);
    } else {
      TabulateNew(rules, entries, e, host, says);
    }
  }

  ghost predicate Suppressing(entries: seq<Entry>) { exists i :: 0 <= i < |entries| && entries[i].line == Suppress }

  function NoLists(userAllow: HostRules, userBlock: HostRules): Policy {
    Policy(userAllow, userBlock, map[], map[], false)
  }

  ghost predicate ListsHold(p: Policy, entries: seq<Entry>) {
    && Tabulates(p.listBlock, entries, SaysBlock)
    && Tabulates(p.listAllow, entries, SaysAllow)
    && (p.suppressed <==> Suppressing(entries))
  }

  lemma AddBlocks(p: Policy, entries: seq<Entry>, e: Entry)
    requires Tabulates(p.listBlock, entries, SaysBlock)
    ensures Tabulates(AddEntry(p, e).listBlock, entries + [e], SaysBlock)
  {
    if e.line.Block? {
      TabulateInsert(p.listBlock, entries, e, e.line.host, SaysBlock);
    } else {
      TabulateSkip(p.listBlock, entries, e, SaysBlock);
    }
  }

  lemma AddAllows(p: Policy, entries: seq<Entry>, e: Entry)
    requires Tabulates(p.listAllow, entries, SaysAllow)
    ensures Tabulates(AddEntry(p, e).listAllow, entries + [e], SaysAllow)
  {
    if e.line.Allow? || e.line.Protect? {
      TabulateInsert(p.listAllow, entries, e, e.line.host, SaysAllow);
    } else {
      TabulateSkip(p.listAllow, entries, e, SaysAllow);
    }
  }

  lemma AddSuppresses(p: Policy, entries: seq<Entry>, e: Entry)
    requires p.suppressed <==> Suppressing(entries)
    ensures AddEntry(p, e).suppressed <==> Suppressing(entries + [e])
  {
    var all := entries + [e];
    if Suppressing(entries) {
      var i :| 0 <= i < |entries| && entries[i].line == Suppress;
      assert all[i].line == Suppress;
    }
    assert all[|entries|] == e;
  }

  /** The fold keeps, for every host, the first line that blocks or allows it. */
  lemma {:induction false} FoldHolds(userAllow: HostRules, userBlock: HostRules, entries: seq<Entry>)
    ensures ListsHold(Fold(NoLists(userAllow, userBlock), entries), entries)
  {
    if entries != [] {
      var front, last := entries[..|entries| - 1], entries[|entries| - 1];
      FoldHolds(userAllow, userBlock, front);
      var p := Fold(NoLists(userAllow, userBlock), front);
      AddBlocks(p, front, last);
      AddAllows(p, front, last);
      AddSuppresses(p, front, last);
      assert front + [last] == entries;
    }
  }

  lemma {:induction false} FoldKeepsUsers(start: Policy, entries: seq<Entry>)
    ensures Fold(start, entries).userAllow == start.userAllow && Fold(start, entries).userBlock == start.userBlock
  {
    if entries != [] { FoldKeepsUsers(start, entries[..|entries| - 1]); }
  }

  // Report

  datatype Counts = Counts(
    lines: nat, blocks: nat, allows: nat, conservative: nat, ignored: nat, unsupported: nat)

  function CountLine(c: Counts, line: Line): Counts {
    var counted := c.(lines := c.lines + 1);
    match line
    case Ignore => counted.(ignored := c.ignored + 1)
    case Block(_) => counted.(blocks := c.blocks + 1)
    case Allow(_) => counted.(allows := c.allows + 1)
    case Protect(_) => counted.(conservative := c.conservative + 1, unsupported := c.unsupported + 1)
    case _ => counted.(unsupported := c.unsupported + 1)
  }

  function CountAll(entries: seq<Entry>): Counts {
    if entries == [] then Counts(0, 0, 0, 0, 0, 0)
    else CountLine(CountAll(entries[..|entries| - 1]), entries[|entries| - 1].line)
  }

  predicate Diagnosed(line: Line) { line.Protect? || line.Suppress? || line.Omit? }

  function Chosen(entries: seq<Entry>, kind: Line -> bool): seq<Entry> {
    if entries == [] then [] else
      Chosen(entries[..|entries| - 1], kind)
      + if kind(entries[|entries| - 1].line) then [entries[|entries| - 1]] else []
  }

  /** Counts every entry and keeps the first few. */
  datatype Sample = Sample(kept: seq<Entry>, total: nat)

  function SampleOf(entries: seq<Entry>, limit: nat): Sample {
    Sample(if |entries| <= limit then entries else entries[..limit], |entries|)
  }

  function Push(sample: Sample, e: Entry, limit: nat): Sample {
    Sample(if |sample.kept| < limit then sample.kept + [e] else sample.kept, sample.total + 1)
  }

  lemma PushKeepsFirst(entries: seq<Entry>, e: Entry, limit: nat)
    ensures SampleOf(entries + [e], limit) == Push(SampleOf(entries, limit), e, limit)
  {
    if |entries| < limit {
      assert |entries + [e]| <= limit;
    } else {
      assert (entries + [e])[..limit] == entries[..limit];
      assert entries[..|entries|] == entries;
    }
  }

  datatype Report = Report(diagnostics: Sample, reasons: Sample)

  function Note(r: Report, e: Entry): Report {
    Report(if Diagnosed(e.line) then Push(r.diagnostics, e, MAX_DIAGNOSTICS) else r.diagnostics,
           if e.line == Suppress then Push(r.reasons, e, MAX_SUPPRESSION_REASONS) else r.reasons)
  }

  function IsSuppress(line: Line): bool { line == Suppress }

  function ReportOf(entries: seq<Entry>): Report {
    Report(SampleOf(Chosen(entries, Diagnosed), MAX_DIAGNOSTICS),
           SampleOf(Chosen(entries, IsSuppress), MAX_SUPPRESSION_REASONS))
  }

  lemma ReportSnoc(entries: seq<Entry>, e: Entry)
    ensures ReportOf(entries + [e]) == Note(ReportOf(entries), e)
  {
    var all := entries + [e];
    assert all[..|all| - 1] == entries;
    PushKeepsFirst(Chosen(entries, Diagnosed), e, MAX_DIAGNOSTICS);
    PushKeepsFirst(Chosen(entries, IsSuppress), e, MAX_SUPPRESSION_REASONS);
    assert Chosen(entries, Diagnosed) + [] == Chosen(entries, Diagnosed);
    assert Chosen(entries, IsSuppress) + [] == Chosen(entries, IsSuppress);
  }

  /** Every line is counted once, and exactly the unsupported ones are diagnosed. */
  lemma {:induction false} LinesCounted(entries: seq<Entry>)
    ensures var c := CountAll(entries);
            && c.lines == |entries|
            && c.lines == c.ignored + c.blocks + c.allows + c.unsupported
            && c.unsupported == |Chosen(entries, Diagnosed)|
  {
    if entries != [] { LinesCounted(entries[..|entries| - 1]); }
  }

  // The loops

  datatype Scan = Scan(policy: Policy, report: Report)

  function ScanOf(start: Policy, entries: seq<Entry>): Scan { Scan(Fold(start, entries), ReportOf(entries)) }

  lemma ScanSnoc(start: Policy, entries: seq<Entry>, e: Entry)
    ensures ScanOf(start, entries + [e])
            == Scan(AddEntry(ScanOf(start, entries).policy, e), Note(ScanOf(start, entries).report, e))
  {
    assert (entries + [e])[..|entries|] == entries;
    ReportSnoc(entries, e);
  }

  lemma TakeSnoc(entries: seq<Entry>, i: nat)
    requires i < |entries|
    ensures entries[..i + 1] == entries[..i] + [entries[i]]
  {
  }

  lemma EntriesStep(start: Policy, earlier: seq<Entry>, entries: seq<Entry>, i: nat)
    requires i < |entries|
    ensures var before := ScanOf(start, earlier + entries[..i]);
            ScanOf(start, earlier + entries[..i + 1])
            == Scan(AddEntry(before.policy, entries[i]), Note(before.report, entries[i]))
    ensures CountAll(entries[..i + 1]) == CountLine(CountAll(entries[..i]), entries[i].line)
  {
    TakeSnoc(entries, i);
    ScanSnoc(start, earlier + entries[..i], entries[i]);
    assert earlier + entries[..i + 1] == earlier + entries[..i] + [entries[i]];
    assert entries[..i + 1][..i] == entries[..i];
  }

  /** The loop over one source's lines. */
  method ScanSource(start: Policy, ghost earlier: seq<Entry>, before: Scan, entries: seq<Entry>)
    returns (after: Scan, counts: Counts)
    requires before == ScanOf(start, earlier)
    ensures after == ScanOf(start, earlier + entries) && counts == CountAll(entries)
  {
    after, counts := before, CountAll([]);
    assert earlier + entries[..0] == earlier;
    for i := 0 to |entries|
      invariant after == ScanOf(start, earlier + entries[..i]) && counts == CountAll(entries[..i])
    {
      EntriesStep(start, earlier, entries, i);
      after := Scan(AddEntry(after.policy, entries[i]), Note(after.report, entries[i]));
      counts := CountLine(counts, entries[i].line);
    }
    assert entries[..|entries|] == entries;
  }

  // Users' hosts

  function UserTable(hosts: seq<Option<string>>, name: string): HostRules {
    map h | h in hosts && h.Some? :: h.value := Matched(name, h.value)
  }

  predicate GoodHosts(hosts: seq<Option<string>>) { |hosts| <= MAX_USER_HOSTS && None !in hosts }

  /** `compile_user_hosts`, over the normalised names. */
  method CompileUserHosts(hosts: seq<Option<string>>, name: string) returns (rules: Option<HostRules>)
    ensures rules == if GoodHosts(hosts) then Some(UserTable(hosts, name)) else None
  {
    if |hosts| > MAX_USER_HOSTS {
      return None;
    }
    var found: HostRules := map[];
    for i := 0 to |hosts|
      invariant None !in hosts[..i] && found == UserTable(hosts[..i], name)
    {
      if hosts[i] == None {
        return None;
      }
      UserTableSnoc(hosts, i, name);
      found := OrInsert(found, hosts[i].value, Matched(name, hosts[i].value));
    }
    assert hosts[..|hosts|] == hosts;
    return Some(found);
  }

  lemma UserTableSnoc(hosts: seq<Option<string>>, i: nat, name: string)
    requires i < |hosts| && hosts[i].Some?
    ensures UserTable(hosts[..i + 1], name)
            == OrInsert(UserTable(hosts[..i], name), hosts[i].value, Matched(name, hosts[i].value))
    ensures None in hosts[..i + 1] <==> None in hosts[..i]
  {
    assert hosts[..i + 1] == hosts[..i] + [hosts[i]];
  }

  // Which source each stored rule came from

  ghost function HostsFrom(rules: HostRules, name: string): set<string> {
    set h | h in rules && rules[h].source == name
  }

  function Sum(xs: seq<nat>): nat { if xs == [] then 0 else Sum(xs[..|xs| - 1]) + xs[|xs| - 1] }

  function Position(names: seq<string>, name: string): (n: nat)
    ensures n <= |names|
    ensures n < |names| ==> names[n] == name
    ensures n == |names| ==> name !in names
  {
    if names == [] || names[0] == name then 0 else 1 + Position(names[1..], name)
  }

  ghost predicate Attributed(rules: HostRules, hosts: set<string>, names: seq<string>, counts: seq<nat>) {
    && |counts| == |names|
    && forall i | 0 <= i < |names| :: counts[i] == |HostsFrom(rules, names[i]) * hosts|
  }

  /** One loop over a table's values: each adds one to the source that carries its name. */
  method Attribute(rules: HostRules, names: seq<string>) returns (counts: seq<nat>)
    requires Distinct(names)
    ensures |counts| == |names|
    ensures forall i | 0 <= i < |names| :: counts[i] == |HostsFrom(rules, names[i])|
  {
    counts := seq(|names|, _ => 0);
    var left := rules.Keys;
    ghost var done: set<string> := {};
    while left != {}
      invariant done + left == rules.Keys && done !! left
      invariant Attributed(rules, done, names, counts)
      decreases |left|
    {
      var host :| host in left;
      var n := Position(names, rules[host].source);
      AttributeStep(rules, done, names, counts, host, n);
      if n < |names| {
        counts := counts[n := counts[n] + 1];
      }
      left, done := left - {host}, done + {host};
    }
    AttributedAll(rules, done, names, counts);
  }

  lemma AttributedAll(rules: HostRules, hosts: set<string>, names: seq<string>, counts: seq<nat>)
    requires Attributed(rules, hosts, names, counts) && hosts == rules.Keys
    ensures forall i | 0 <= i < |names| :: counts[i] == |HostsFrom(rules, names[i])|
  {
    forall i | 0 <= i < |names| ensures counts[i] == |HostsFrom(rules, names[i])| {
      assert HostsFrom(rules, names[i]) * hosts == HostsFrom(rules, names[i]);
    }
  }

  lemma AttributeStep(rules: HostRules, done: set<string>, names: seq<string>, counts: seq<nat>, host: string, n: nat)
    requires Attributed(rules, done, names, counts) && Distinct(names)
    requires host in rules && host !in done && n == Position(names, rules[host].source)
    ensures Attributed(rules, done + {host}, names, if n < |names| then counts[n := counts[n] + 1] else counts)
  {
    forall i | 0 <= i < |names|
      ensures |HostsFrom(rules, names[i]) * (done + {host})|
              == |HostsFrom(rules, names[i]) * done| + if i == n then 1 else 0
    {
      var was, now := HostsFrom(rules, names[i]) * done, HostsFrom(rules, names[i]) * (done + {host});
      if i == n {
        assert now == was + {host};
      } else {
        assert rules[host].source != names[i];
        assert now == was;
      }
    }
  }

  ghost function HostsOfAll(rules: HostRules, names: seq<string>): set<string> {
    set h | h in rules && rules[h].source in names
  }

  /** The per-source counts of a table add up to its size. */
  lemma {:induction false} AttributionSums(rules: HostRules, names: seq<string>, counts: seq<nat>)
    requires Distinct(names) && |counts| == |names|
    requires forall i | 0 <= i < |names| :: counts[i] == |HostsFrom(rules, names[i])|
    ensures Sum(counts) == |HostsOfAll(rules, names)|
  {
    if names == [] {
      assert HostsOfAll(rules, names) == {};
    } else {
      var n := |names| - 1;
      var front, last := names[..n], names[n];
      AttributionSums(rules, front, counts[..n]);
      assert names == front + [last];
      HostsOfAllSnoc(rules, front, last);
    }
  }

  lemma HostsOfAllSnoc(rules: HostRules, front: seq<string>, last: string)
    requires last !in front
    ensures |HostsOfAll(rules, front + [last])| == |HostsOfAll(rules, front)| + |HostsFrom(rules, last)|
  {
    var all, some, more := HostsOfAll(rules, front + [last]), HostsOfAll(rules, front), HostsFrom(rules, last);
    assert all == some + more;
    assert some !! more;
  }
}
