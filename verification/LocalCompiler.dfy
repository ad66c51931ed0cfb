/** Compiling the local list, and the contract with the extension's validator. */
module LocalCompiler {
  import opened Text
  import opened Hosts
  import opened Selector
  import opened LocalRules
  import opened Validator
  import Dnr
  import Controller
  import NetworkFilter
  import NetworkMeaning

  type BrowserRule = Controller.BrowserRule

  datatype Stats = Stats(network: nat, cosmetic: nat, unsupported: nat, ignored: nat)

  datatype Compilation = Compilation(
    network: seq<BrowserRule>,
    cosmetics: seq<CosmeticRule>,
    diagnostics: seq<Diagnostic>,
    stats: Stats)

  function StripBom(text: string): string { StripPrefix(text, [0xFEFF as char]) }

  function TextLines(text: string): seq<string> { Lines(StripBom(text)) }

  function Raws(text: string): seq<string> { MapSeq(TextLines(text), Trim) }

  /** What the first pass over the text looks at in a line. */
  datatype Measure = Measure(bytes: nat, blank: bool)

  function MeasureOf(line: string): Measure { Measure(Utf8Len(line), Trim(line) == "") }

  function NonBlank(lines: seq<Measure>): nat {
    if lines == [] then 0 else NonBlank(lines[..|lines| - 1]) + if lines[|lines| - 1].blank then 0 else 1
  }

  predicate LinesFit(lines: seq<Measure>) {
    (forall i | 0 <= i < |lines| :: lines[i].bytes <= MAX_LINE_BYTES) && NonBlank(lines) <= MAX_NONEMPTY_LINES
  }

  /** The limits that reject a whole import. */
  predicate WithinBounds(text: string) {
    Utf8Len(text) <= MAX_TEXT_BYTES && LinesFit(MapSeq(TextLines(text), MeasureOf))
  }

  function Emit(r: Normalized): Dnr.Rule
    requires r.Network?
  {
    Dnr.Rule(
      if r.exception then 2 else 1,
      if r.exception then Dnr.Allow else Dnr.Block,
      Dnr.Condition(Some(r.pattern), {}, NetworkFilter.RESOURCE_TYPES,
                    if r.thirdParty then Some(Dnr.ThirdParty) else None, {}, {}, false))
  }

  function EmitKey(p: Progress, key: string): Option<Dnr.Rule> {
    if key in p.network && p.network[key].Network? then Some(Emit(p.network[key])) else None
  }

  /** The emitted rules in the order of their keys, each with its assigned ID. */
  function EmitAll(p: Progress, ids: seq<nat>): seq<BrowserRule>
    requires |ids| == |p.keys|
    requires forall k | k in p.keys :: k in p.network && p.network[k].Network?
  {
    seq(|p.keys|, i requires 0 <= i < |p.keys| => Controller.BrowserRule(ids[i], Emit(p.network[p.keys[i]])))
  }

  lemma KeysMapped(raws: seq<string>, source: string)
    ensures var p := Scan(raws, source); forall k | k in p.keys :: k in p.network && p.network[k].Network?
  {
    ScanKeyed(raws, source);
  }

  /** The compiled form of scanned lines. */
  ghost predicate Compiles(p: Progress, hash: string -> nat, c: Compilation) {
    && |c.network| == |p.keys|
    && (forall i | 0 <= i < |p.keys| ::
          c.network[i].id == AssignedIds(p.keys, hash)[i] && Some(c.network[i].rule) == EmitKey(p, p.keys[i]))
    && c.cosmetics == p.cosmetics && c.diagnostics == p.diagnostics
    && c.stats == Stats(|c.network|, |c.cosmetics|, p.unsupported, p.ignored)
  }

  /** The first loop: every bound is checked before any rule is produced. */
  method CheckLines(lines: seq<Measure>) returns (fits: bool)
    ensures fits <==> LinesFit(lines)
  {
    var nonempty := 0;
    for i := 0 to |lines|
      invariant forall j | 0 <= j < i :: lines[j].bytes <= MAX_LINE_BYTES
      invariant nonempty == NonBlank(lines[..i]) <= MAX_NONEMPTY_LINES
    {
      assert lines[..i + 1][..i] == lines[..i];
      if lines[i].bytes > MAX_LINE_BYTES {
        return false;
      }
      if !lines[i].blank {
        nonempty := nonempty + 1;
      }
      if nonempty > MAX_NONEMPTY_LINES {
        NonBlankGrows(lines, i + 1);
        return false;
      }
    }
    assert lines[..|lines|] == lines;
    return true;
  }

  lemma {:induction false} NonBlankGrows(lines: seq<Measure>, n: nat)
    requires n <= |lines|
    ensures NonBlank(lines[..n]) <= NonBlank(lines)
    decreases |lines| - n
  {
    if n == |lines| {
      assert lines[..n] == lines;
    } else {
      assert lines[..n + 1][..n] == lines[..n];
      NonBlankGrows(lines, n + 1);
    }
  }

  // What scanned lines guarantee

  predicate GoodPattern(pattern: string) {
    StartsWith(pattern, "||") && Printable(pattern) && Utf8Len(pattern) <= MAX_RAW
  }

  predicate GoodRule(r: Normalized) {
    match r
    case Network(pattern, _, _) => GoodPattern(pattern)
    case Cosmetic(domains, selector) => Domains(domains, MAX_DOMAINS) && ValidSelector(selector)
  }

  lemma PrintableJoin(host: string, suffix: string, n: nat)
    requires HostValid(host) && 2 + |host| + |suffix| <= n <= MAX_RAW
    requires forall i | 0 <= i < |suffix| :: 0x20 <= suffix[i] as int <= 0x7e
    ensures GoodPattern("||" + Lower(host) + suffix)
  {
    var low := Lower(host);
    LowerHostIsDomain(host);
    HostChars(low);
    var pattern := "||" + low + suffix;
    forall i | 0 <= i < |pattern| ensures 0x20 <= pattern[i] as int <= 0x7e {
      if i >= 2 && i < 2 + |low| { assert pattern[i] == low[i - 2] && low[i - 2] in low; }
    }
    assert Ascii(pattern);
    assert pattern[..2] == "||";
  }

  lemma SuffixGood(anchored: string)
    requires HostAndSuffix(anchored).Some?
    ensures var cut := HostAndSuffix(anchored).value;
            |cut.0| + |cut.1| == |anchored| && forall i | 0 <= i < |cut.1| :: 0x20 <= cut.1[i] as int <= 0x7e
  {
    var cut := HostAndSuffix(anchored).value;
    if !EndsWith(anchored, "^") {
      assert forall i | 0 <= i < |cut.1| :: PathChar(cut.1[i]);
    }
  }

  lemma PatternGood(pattern: string, exception: bool, thirdParty: bool)
    requires |pattern| <= MAX_RAW && ParsePattern(pattern, exception, thirdParty).Some?
    ensures GoodRule(ParsePattern(pattern, exception, thirdParty).value)
  {
    var anchored := pattern[2..];
    var cut := HostAndSuffix(anchored).value;
    SuffixGood(anchored);
    PrintableJoin(cut.0, cut.1, |pattern|);
  }

  lemma NetworkGood(raw: string)
    requires |raw| <= MAX_RAW && ParseNetwork(raw).Some?
    ensures GoodRule(ParseNetwork(raw).value)
  {
    var exception, body := StartsWith(raw, "@@"), StripPrefix(raw, "@@");
    match SplitOnce(body, "$") {
      case Some(cut) => PatternGood(cut.0, exception, true);
      case None => PatternGood(body, exception, false);
    }
  }

  lemma CosmeticGood(scope: string, selector: string)
    requires ParseCosmetic(scope, selector).Some?
    ensures GoodRule(ParseCosmetic(scope, selector).value)
  {
    CanonicalValid(selector);
    var parts := Split(scope, ',');
    if scope != "" {
      forall d | d in LowerAll(parts) ensures IsDomain(d) {
        var p :| p in parts && d == Lower(p);
        LowerHostIsDomain(p);
      }
    }
  }

  /** Whatever a line of legal length parses to meets the validator's demands on one rule. */
  lemma ParsedGood(raw: string)
    requires Utf8Len(raw) <= MAX_RAW && ParseRule(raw).Some?
    ensures GoodRule(ParseRule(raw).value)
  {
    match SplitOnce(raw, "##") {
      case Some(cut) => CosmeticGood(cut.0, cut.1);
      case None => NetworkGood(raw);
    }
  }

  ghost predicate GoodProgress(p: Progress, source: string) {
    && (forall k | k in p.network :: GoodRule(p.network[k]))
    && (forall i | 0 <= i < |p.cosmetics| :: GoodCosmetic(p.cosmetics[i], source))
    && (forall i | 0 <= i < |p.diagnostics| :: Utf8Len(p.diagnostics[i].raw) <= MAX_RAW && 1 <= p.diagnostics[i].line)
  }

  predicate GoodCosmetic(c: CosmeticRule, source: string) {
    Domains(c.domains, MAX_DOMAINS) && ValidSelector(c.selector) && Utf8Len(c.raw) <= MAX_RAW && c.source == source
  }

  lemma AddGood(p: Progress, raw: string, line: nat, source: string, parsed: Option<Normalized>)
    requires GoodProgress(p, source) && Utf8Len(raw) <= MAX_RAW && line >= 1
    requires parsed.Some? ==> GoodRule(parsed.value)
    ensures GoodProgress(AddParsed(p, raw, line, source, parsed), source)
  {
  }

  lemma {:induction false} ScanGood(raws: seq<string>, source: string)
    requires forall i | 0 <= i < |raws| :: Utf8Len(raws[i]) <= MAX_RAW
    ensures GoodProgress(Scan(raws, source), source)
  {
    if raws != [] {
      var front, last := raws[..|raws| - 1], raws[|raws| - 1];
      ScanGood(front, source);
      if !IgnoredLine(last) {
        if ParseRule(last).Some? { ParsedGood(last); }
        AddGood(Scan(front, source), last, |raws|, source, ParseRule(last));
      }
    }
  }

  // Counting

  lemma {:induction false} InsertSize(s: seq<string>, x: string)
    ensures |Insert(s, x)| <= |s| + 1
  {
    if s != [] { InsertSize(s[1..], x); }
  }

  /** Every line is ignored or diagnosed, and only diagnosed lines add rules. */
  ghost predicate Counted(p: Progress, lines: nat) {
    && p.ignored + |p.diagnostics| == lines
    && |p.keys| + |p.cosmetics| + p.unsupported <= |p.diagnostics|
    && forall i | 0 <= i < |p.diagnostics| :: p.diagnostics[i].line <= lines
  }

  lemma AddCounted(p: Progress, raw: string, source: string, parsed: Option<Normalized>, lines: nat)
    requires Counted(p, lines)
    ensures Counted(AddParsed(p, raw, lines + 1, source, parsed), lines + 1)
  {
    if parsed.Some? && parsed.value.Network? { InsertSize(p.keys, KeyFor(parsed.value)); }
  }

  lemma {:induction false} ScanCounted(raws: seq<string>, source: string)
    ensures Counted(Scan(raws, source), |raws|)
  {
    if raws != [] {
      var front, last := raws[..|raws| - 1], raws[|raws| - 1];
      ScanCounted(front, source);
      if !IgnoredLine(last) { AddCounted(Scan(front, source), last, source, ParseRule(last), |front|); }
    }
  }

  ghost function NonEmptyRaws(raws: seq<string>): nat {
    if raws == [] then 0 else NonEmptyRaws(raws[..|raws| - 1]) + if raws[|raws| - 1] == "" then 0 else 1
  }

  lemma {:induction false} DiagnosedAreNonEmpty(raws: seq<string>, source: string)
    ensures |Scan(raws, source).diagnostics| <= NonEmptyRaws(raws)
  {
    if raws != [] {
      var front, last := raws[..|raws| - 1], raws[|raws| - 1];
      DiagnosedAreNonEmpty(front, source);
      if !IgnoredLine(last) { AddDiagnoses(Scan(front, source), last, |raws|, source, ParseRule(last)); }
    }
  }

  lemma AddDiagnoses(p: Progress, raw: string, line: nat, source: string, parsed: Option<Normalized>)
    ensures |AddParsed(p, raw, line, source, parsed).diagnostics| == |p.diagnostics| + 1
  {
  }

  lemma {:induction false} NonEmptyAgrees(lines: seq<string>)
    ensures NonEmptyRaws(MapSeq(lines, Trim)) == NonBlank(MapSeq(lines, MeasureOf))
  {
    if lines != [] {
      var front := lines[..|lines| - 1];
      NonEmptyAgrees(front);
      assert MapSeq(lines, Trim)[..|front|] == MapSeq(front, Trim);
      assert MapSeq(lines, MeasureOf)[..|front|] == MapSeq(front, MeasureOf);
    }
  }

  // The whole compiler

  /** The loop over the lines. */
  method ScanLines(raws: seq<string>, source: string) returns (p: Progress)
    ensures p == Scan(raws, source)
  {
    p := NOTHING;
    for i := 0 to |raws|
      invariant p == Scan(raws[..i], source)
    {
      assert raws[..i + 1][..i] == raws[..i];
      p := AddLine(p, raws[i], i + 1, source);
    }
    assert raws[..|raws|] == raws;
  }

  /** `compile`: nothing at all outside the bounds. */
  method Compile(text: string, source: string, hash: string -> nat) returns (r: Option<Compilation>)
    ensures r.Some? <==> WithinBounds(text)
    ensures r.Some? ==> Compiles(Scan(Raws(text), source), hash, r.value)
  {
    if Utf8Len(text) > MAX_TEXT_BYTES {
      return None;
    }
    var fits := CheckLines(MapSeq(TextLines(text), MeasureOf));
    if !fits {
      return None;
    }
    var p := ScanLines(Raws(text), source);
    FewKeys(text, source);
    KeysMapped(Raws(text), source);
    var ids := AssignIds(p.keys, hash);
    var network := EmitAll(p, ids);
    return Some(Compilation(network, p.cosmetics, p.diagnostics,
                            Stats(|network|, |p.cosmetics|, p.unsupported, p.ignored)));
  }

  lemma FewKeys(text: string, source: string)
    requires WithinBounds(text)
    ensures var p := Scan(Raws(text), source);
            |p.keys| + |p.cosmetics| + p.unsupported <= |p.diagnostics| <= MAX_NONEMPTY_LINES
            && p.ignored <= |Raws(text)|
  {
    ScanCounted(Raws(text), source);
    DiagnosedAreNonEmpty(Raws(text), source);
    NonEmptyAgrees(TextLines(text));
  }

  /** The emitted network rules depend only on the set of normalised network rules in the text, not
      on the order of its lines, on duplicates or on anything else in it. */
  lemma NetworkDependsOnSet(a: seq<string>, b: seq<string>, source: string, hash: string -> nat, x: Compilation, y: Compilation)
    requires AllNetwork(a) == AllNetwork(b)
    requires Compiles(Scan(a, source), hash, x) && Compiles(Scan(b, source), hash, y)
    ensures x.network == y.network
  {
    var p, q := Scan(a, source), Scan(b, source);
    ScanKeyed(a, source);
    ScanKeyed(b, source);
    SameKeyed(p, q, AllNetwork(a));
    forall i | 0 <= i < |p.keys| ensures x.network[i] == y.network[i] {}
  }

  lemma SameKeyed(p: Progress, q: Progress, rules: set<Normalized>)
    requires Keyed(p, rules) && Keyed(q, rules)
    ensures p.network == q.network && p.keys == q.keys
  {
    assert p.network.Keys == q.network.Keys by {
      forall k | k in p.network ensures k in q.network { assert p.network[k] in rules; }
      forall k | k in q.network ensures k in p.network { assert q.network[k] in rules; }
    }
    forall k | k in p.network ensures p.network[k] == q.network[k] { assert p.network[k] in rules; }
    ListingUnique(p.keys, q.keys, p.network.Keys);
  }

  // The contract

  /** `validateCompilation` for a local list. */
  ghost predicate Accepted(c: Compilation) {
    && |c.network| + |c.cosmetics| <= Controller.MAX_RULES && |c.diagnostics| <= Controller.MAX_RULES
    && DistinctIds(c.network)
    && (forall i | 0 <= i < |c.network| :: ValidateNetwork(c.network[i], false))
    && (forall i | 0 <= i < |c.cosmetics| ::
          var r := c.cosmetics[i]; ValidateCosmetic(r.domains, {}, r.selector, r.raw, r.source, false))
    && (forall i | 0 <= i < |c.diagnostics| :: ValidateDiagnostic(c.diagnostics[i].line, c.diagnostics[i].raw))
    && c.stats.network == |c.network| && c.stats.cosmetic == |c.cosmetics|
    && c.stats.unsupported <= Controller.MAX_RULES && c.stats.ignored <= MAX_TEXT_BYTES + 1
  }

  lemma EmittedValid(r: Normalized, id: nat)
    requires r.Network? && GoodRule(r) && IsId(id)
    ensures ValidateNetwork(Controller.BrowserRule(id, Emit(r)), false)
  {
    var kinds := NetworkFilter.RESOURCE_TYPES;
    forall i | 0 <= i < |kinds| ensures kinds[i] != Dnr.MainFrame {
      NetworkMeaning.AllKinds(kinds[i]);
      assert kinds[i] in kinds;
    }
    TypeListsDistinct();
  }

  lemma NetworkAccepted(text: string, source: string, hash: string -> nat, c: Compilation)
    requires WithinBounds(text) && Compiles(Scan(Raws(text), source), hash, c)
    requires GoodProgress(Scan(Raws(text), source), source)
    ensures DistinctIds(c.network) && forall i | 0 <= i < |c.network| :: ValidateNetwork(c.network[i], false)
  {
    var p := Scan(Raws(text), source);
    FewKeys(text, source);
    KeysMapped(Raws(text), source);
    IdsDistinct(p.keys, hash);
    var ids := AssignedIds(p.keys, hash);
    forall i | 0 <= i < |c.network| ensures ValidateNetwork(c.network[i], false) {
      var k := p.keys[i];
      assert k in p.keys && ids[i] in ids;
      EmittedValid(p.network[k], ids[i]);
    }
  }

  lemma RawsFit(text: string)
    requires WithinBounds(text)
    ensures forall i | 0 <= i < |Raws(text)| :: Utf8Len(Raws(text)[i]) <= MAX_RAW
    ensures |Raws(text)| <= MAX_TEXT_BYTES
  {
    var lines := TextLines(text);
    var measures := MapSeq(lines, MeasureOf);
    forall i | 0 <= i < |lines| ensures Utf8Len(Raws(text)[i]) <= MAX_RAW {
      assert measures[i] == MeasureOf(lines[i]);
      assert Raws(text)[i] == Trim(lines[i]);
    }
    assert |lines| <= |StripBom(text)| <= |text| <= Utf8Len(text);
  }

  /** Compiler and validator agree: whatever text compiles, under a list name of at most 128 bytes
      and with any hash, the extension accepts the result. */
  lemma CompilationAccepted(text: string, source: string, hash: string -> nat, c: Compilation)
    requires WithinBounds(text) && Utf8Len(source) <= MAX_SOURCE
    requires Compiles(Scan(Raws(text), source), hash, c)
    ensures Accepted(c)
  {
    var p := Scan(Raws(text), source);
    RawsFit(text);
    ScanGood(Raws(text), source);
    ScanCounted(Raws(text), source);
    FewKeys(text, source);
    NetworkAccepted(text, source, hash, c);
  }

  /** Every scanned line is counted once: supported and unsupported lines are diagnosed, all others
      ignored. */
  lemma LinesConserved(text: string, source: string, hash: string -> nat, c: Compilation)
    requires Compiles(Scan(Raws(text), source), hash, c)
    ensures |c.diagnostics| + c.stats.ignored == |TextLines(text)|
    ensures c.stats.network + c.stats.cosmetic + c.stats.unsupported <= |c.diagnostics|
  {
    ScanCounted(Raws(text), source);
  }
}
