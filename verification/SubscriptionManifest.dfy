/** What the extension checks in the report of a subscription compilation.  Its counters must not
    pass 600,002, a bound that compilations of more than 200,000 lines can exceed. */
module SubscriptionManifest {
  import opened Text
  import opened Dnr
  import opened NetworkFilter
  import opened Packing
  import opened Reasons
  import opened SubscriptionLines
  import opened SubscriptionCompiler
  import opened SubscriptionContract
  import opened SubscriptionBadfilter
  import opened SubscriptionGaps
  import Diagnostics

  const MAX_REASONS := 200
  const FEW_LINES := 200_000

  // The check

  function IdsOf(sources: seq<Source>): seq<string> {
    seq(|sources|, i requires 0 <= i < |sources| => sources[i].id)
  }

  predicate IdsAccepted(ids: seq<string>) {
    && 1 <= |ids| <= 2 && (forall i | 0 <= i < |ids| :: SourceId(ids[i]))
    && (forall i, j | 0 <= i < j < |ids| :: ids[i] != ids[j])
  }

  predicate CountersAccepted(out: Output) {
    && out.networkSupported <= MAX_STAT && out.networkDropped <= MAX_STAT
    && out.cosmeticSupported <= MAX_STAT && out.cosmeticDropped <= MAX_STAT
    && out.safetySuppressed <= MAX_STAT && out.diagnosticsTotal <= MAX_STAT
  }

  predicate CoverageAccepted(out: Output) {
    && out.diagnosticsTotal >= |out.samples| && out.truncated == (out.diagnosticsTotal > |out.samples|)
    && out.networkSupported == |out.rules| + out.networkDropped
    && out.cosmeticSupported >= |out.cosmetics| + out.cosmeticDropped
  }

  predicate StatsFit(stats: ListStats) {
    stats.network <= MAX_STAT && stats.cosmetic <= MAX_STAT && stats.unsupported <= MAX_STAT && stats.ignored <= MAX_STAT
  }

  /** The statistics of each list asked for, once, and of no other. */
  predicate ListStatsAccepted(ids: seq<string>, listStats: seq<ListStats>) {
    && |listStats| == |ids|
    && (forall i, j | 0 <= i < j < |listStats| :: listStats[i].id != listStats[j].id)
    && (forall i | 0 <= i < |listStats| :: listStats[i].id in ids && StatsFit(listStats[i]))
  }

  ghost predicate ReasonsAccepted(reasons: map<Reason, nat>) {
    |reasons| <= MAX_REASONS && forall r | r in reasons :: 1 <= reasons[r] <= MAX_STAT
  }

  /** `validateSubscriptionManifest` for the lists asked for and the rules asked for. */
  ghost predicate ManifestAccepted(ids: seq<string>, budget: nat, out: Output) {
    && IdsAccepted(ids)
    && |out.rules| <= budget && |out.cosmetics| <= MAX_COSMETIC && |out.samples| <= Diagnostics.MAX_SAMPLES
    && out.unsupported <= MAX_STAT && out.ignored <= MAX_STAT
    && CountersAccepted(out) && CoverageAccepted(out) && ListStatsAccepted(ids, out.listStats)
    && ReasonsAccepted(out.reasons)
  }

  /** A finished compilation. */
  ghost predicate Compiled(sources: seq<Source>, budget: nat, out: Output) {
    && AcceptableSources(sources, budget) && Compiles(Effects(sources), budget, out) && out.listStats == StatsOf(sources)
    && Annotated(AllReported(sources), ScopeAll(Collect(Effects(sources))), AllHidesFrom(sources), out)
  }

  // Reasons

  const FILTER_REASONS: set<Reason> := {
    BadScope, ScopeTooLong, EmptyDomainRestriction, DuplicateModifier, ConflictingParty, UnsupportedModifier,
    NoResourceType, UnsupportedPattern}
  const LINE_REASONS: set<Reason> := {
    RuleTooLong, BadExceptionSelector, BadSelectorOrScope, ExtendedSyntax, BadfilterTargetUnsupported,
    ConservativeExemption, BroaderGuard, BlocksSuppressed, OmittedForExemption, BadSources, TooManyAllowances}

  lemma Listed(r: Reason)
    ensures r in FILTER_REASONS + LINE_REASONS
  {
    match r {
      case BadScope => case ScopeTooLong => case EmptyDomainRestriction => case DuplicateModifier =>
      case ConflictingParty => case UnsupportedModifier => case NoResourceType => case UnsupportedPattern =>
      case RuleTooLong => case BadExceptionSelector => case BadSelectorOrScope => case ExtendedSyntax =>
      case BadfilterTargetUnsupported => case ConservativeExemption => case BroaderGuard =>
      case BlocksSuppressed => case OmittedForExemption => case BadSources => case TooManyAllowances =>
    }
  }

  lemma ReasonsSize()
    ensures |FILTER_REASONS| <= 8 && |LINE_REASONS| <= 11
  {
  }

  lemma FewReasons(reasons: map<Reason, nat>)
    ensures |reasons| <= MAX_REASONS
  {
    forall r | r in reasons.Keys ensures r in FILTER_REASONS + LINE_REASONS { Listed(r); }
    SubsetSize(reasons.Keys, FILTER_REASONS + LINE_REASONS);
    UnionSize(FILTER_REASONS, LINE_REASONS);
    ReasonsSize();
  }

  lemma {:induction false} CountWithin(log: seq<Diagnostics.Entry>, r: Reason)
    ensures Diagnostics.Count(log, r) <= |log|
  {
    if log != [] { CountWithin(log[..|log| - 1], r); }
  }

  lemma TalliesAccepted(log: seq<Diagnostics.Entry>, reasons: map<Reason, nat>)
    requires Diagnostics.Tallies(log, reasons) && |log| <= MAX_STAT
    ensures ReasonsAccepted(reasons)
  {
    FewReasons(reasons);
    forall r | r in reasons ensures 1 <= reasons[r] <= MAX_STAT { CountWithin(log, r); }
  }

  // Lists

  lemma ListsAccepted(sources: seq<Source>, budget: nat)
    requires AcceptableSources(sources, budget)
    ensures IdsAccepted(IdsOf(sources)) && ListStatsAccepted(IdsOf(sources), StatsOf(sources))
  {
    FewSources(sources, budget);
    var ids, stats := IdsOf(sources), StatsOf(sources);
    forall i | 0 <= i < |sources| ensures |stats| == |ids| && stats[i].id == ids[i] && StatsFit(stats[i]) {
      ListStatsCount(sources, i);
      RawsBounded(sources[i]);
    }
    ListStatsCount(sources, 0);
  }

  lemma CoverageHolds(sources: seq<Source>, budget: nat, out: Output)
    requires Compiled(sources, budget, out)
    ensures CoverageAccepted(out) && |out.rules| <= budget
  {
    var log := AllReported(sources) + OmittedEntries(ScopeAll(Collect(Effects(sources))), AllHidesFrom(sources));
    Diagnostics.SampleIsPart(log);
    NetworkContract(sources, budget, out);
  }

  // Counters

  /** What one line adds to the counters. */
  ghost predicate Frugal(e: Effect) {
    |e.reasons| + |e.hides| <= 3 && |e.rules| + |e.hides| <= 2
  }

  lemma PairSize(rules: seq<Rule>)
    requires |rules| <= 2
    ensures |RuleSet(rules)| <= 2
  {
    if rules == [] {
      assert RuleSet(rules) == {};
    } else if |rules| == 1 {
      assert RuleSet(rules) == {rules[0]};
    } else {
      assert RuleSet(rules) == {rules[0], rules[1]};
    }
  }

  lemma NetworkPair(line: string, rules: seq<Rule>)
    requires Network(line) == Ok(rules)
    ensures |RuleSet(rules)| <= 2
  {
    var st := Combine(LineModifiers(line)).value;
    RulesShape(Pattern(line), IsException(line), st, rules);
    PairSize(rules);
  }

  lemma GuardsPair(raw: string)
    ensures |Guards(raw)| <= 2
  {
    var p := Pattern(raw);
    SubsetSize(Guards(raw), {Guard(p), FrameGuard(p)});
  }

  lemma NetworkFrugal(raw: string, line: string, effect: Effect)
    requires |effect.reasons| <= 1 && effect.hides == [] && effect.rules == {}
    ensures Frugal(NetworkEffect(raw, line, effect))
  {
    GuardsPair(raw);
    var rules := Network(line);
    if rules.Ok? { NetworkPair(line, rules.value); }
  }

  lemma ExemptionFrugal(raw: string)
    ensures var e := HidingExemption(raw); |e.reasons| <= 1 && e.hides == [] && e.rules == {}
  {
  }

  lemma TargetFrugal(raw: string, effect: Effect)
    ensures var e := DocumentTarget(raw, effect); e.reasons == effect.reasons && e.hides == effect.hides && e.rules == effect.rules
  {
  }

  lemma FilteredFrugal(raw: string, translated: Option<string>, hiding: Effect)
    requires |hiding.reasons| <= 1 && hiding.hides == [] && hiding.rules == {}
    ensures Frugal(Filtered(raw, translated, hiding))
  {
    TargetFrugal(raw, hiding);
    if translated.Some? { NetworkFrugal(raw, translated.value, DocumentTarget(raw, hiding)); }
  }

  lemma OthersFrugal(raw: string, scope: string, selector: string)
    ensures Frugal(CosmeticException(scope, selector)) && Frugal(CosmeticRule(scope, selector)) && Frugal(Badfilter(raw))
  {
  }

  lemma LineFrugal(raw: string, form: Form)
    ensures Frugal(EffectOf(raw, form))
  {
    if form.FilterForm? {
      ExemptionFrugal(raw);
      FilteredFrugal(raw, Translated(raw), if IsException(raw) then HidingExemption(raw) else NOTHING);
    } else if form.BadfilterForm? {
      OthersFrugal(raw, "", "");
    } else if form.ExceptionForm? || form.RuleForm? {
      OthersFrugal(raw, form.scope, form.selector);
    }
  }

  lemma UnionSize<T>(a: set<T>, b: set<T>)
    ensures |a + b| <= |a| + |b|
  {
    assert a + b == a + (b - a);
    SubsetSize(b - a, b);
  }

  lemma {:induction false} AllFrugal(es: seq<Effect>)
    requires forall e | e in es :: Frugal(e)
    ensures ReasonCount(es) + |Collect(es).hides| <= 3 * |es|
    ensures |Collect(es).rules| + |Collect(es).hides| <= 2 * |es|
  {
    if es != [] {
      var front, last := es[..|es| - 1], es[|es| - 1];
      AllFrugal(front);
      assert last in es;
      UnionSize(Collect(front).rules, last.rules);
    }
  }

  lemma {:induction false} OmittedWithin(scoped: seq<Scoped>)
    ensures OmittedCount(scoped) <= |scoped|
  {
    if scoped != [] { OmittedWithin(scoped[..|scoped| - 1]); }
  }

  lemma EmissionWithin(kept: set<Rule>, suppressBlocks: bool, budget: nat, e: Emitted)
    requires EmissionOf(kept, suppressBlocks, budget, e)
    ensures e.supported + e.suppressed <= |kept|
  {
    var packed :| Packs(kept, packed) && EmissionFrom(packed, suppressBlocks, budget, e);
    PackingShrinks(kept, packed);
  }

  lemma NetworkWithin(kept: set<Rule>, suppressBlocks: bool, budget: nat, omitted: nat, out: Output)
    requires NetworkSide(kept, suppressBlocks, budget, omitted, out)
    ensures out.networkSupported + out.safetySuppressed <= |kept| + omitted
  {
    EmissionWithin(kept, suppressBlocks, budget,
                   Emitted(out.rules, out.networkSupported, out.networkDropped, out.safetySuppressed - omitted));
  }

  /** No counter passes three times the number of lines. */
  lemma CountersWithin(sources: seq<Source>, budget: nat, out: Output)
    requires Compiles(Effects(sources), budget, out)
    ensures var n := |AllRaws(sources)|;
            && out.networkSupported + out.safetySuppressed <= 2 * n && out.diagnosticsTotal <= 3 * n
            && out.networkDropped <= 2 * n && out.cosmeticSupported <= 2 * n && out.cosmeticDropped <= 2 * n
  {
    EffectsOfRaws(sources);
    var raws, es := AllRaws(sources), Effects(sources);
    forall e | e in es ensures Frugal(e) {
      EffectFrom(raws, e);
      var raw :| raw in raws && e == LineEffect(raw);
      LineFrugal(raw, FormOf(raw));
    }
    AllFrugal(es);
    var st := Collect(es);
    OmittedWithin(ScopeAll(st));
    SubsetSize(Kept(st), st.rules);
    NetworkWithin(Kept(st), st.suppressBlocks, budget, OmittedCount(ScopeAll(st)), out);
  }

  /** The extension accepts the report of a compilation exactly when no counter is too large... */
  lemma AcceptedByCounters(sources: seq<Source>, budget: nat, out: Output)
    requires Compiled(sources, budget, out)
    ensures ManifestAccepted(IdsOf(sources), budget, out) <==> CountersAccepted(out)
  {
    ListsAccepted(sources, budget);
    CoverageHolds(sources, budget, out);
    SubscriptionAccepted(sources, budget, out);
    if CountersAccepted(out) {
      TalliesAccepted(AllReported(sources) + OmittedEntries(ScopeAll(Collect(Effects(sources))), AllHidesFrom(sources)),
                      out.reasons);
    }
  }

  /** ...and none is for up to 200,000 lines. */
  lemma FewLinesAccepted(sources: seq<Source>, budget: nat, out: Output)
    requires Compiled(sources, budget, out) && |AllRaws(sources)| <= FEW_LINES
    ensures ManifestAccepted(IdsOf(sources), budget, out)
  {
    CountersWithin(sources, budget, out);
    CoverageHolds(sources, budget, out);
    AcceptedByCounters(sources, budget, out);
  }

  // Beyond 200,000 lines

  /** An untranslatable hiding exception: three diagnostics on one line. */
  function Costly(p: string): string { "@@" + (p + "$" + ("elemhide" + "," + "x")) }

  function Copies(line: string, n: nat): string {
    if n == 0 then "" else line + ("\n" + Copies(line, n - 1))
  }

  lemma CostlyOptions()
    ensures Split("elemhide" + "," + "x", ',') == ["elemhide", "x"] == NonEmpty(["elemhide", "x"])
    ensures '#' !in "elemhide" + "," + "x"
  {
    assert |"elemhide"| == 8 && |"x"| == 1;
    TwoOptions("elemhide", "x");
  }

  lemma CostlyNames()
    ensures "elemhide" in HIDING && "x" !in HIDING
    ensures "badfilter" !in ["elemhide", "x"] && "document" !in ["elemhide", "x"] && "genericblock" !in ["elemhide", "x"]
  {
    assert |"x"| == 1 && |"elemhide"| == 8 && |"badfilter"| == 9 && "document"[0] == 'd' && |"genericblock"| == 12;
  }

  lemma CostlyRemains(options: seq<string>)
    requires options == ["elemhide", "x"]
    ensures Without(options, HIDING) == ["x"] && HasNetworkAction(["x"]) && HidesGenerically(options)
  {
    CostlyNames();
    WithoutCons("elemhide", ["x"]);
    WithoutCons("x", []);
    XIsUnknown();
    assert options == ["elemhide"] + ["x"] && "x" in ["x"] && "elemhide" in options;
  }

  lemma XIsUnknown()
    ensures !StartsWith("x", "domain=") && "x" !in SubscriptionLines.CONTEXT_OPTIONS && ',' !in "x"
    ensures MeaningOf(true, "x") == Unsupported
  {
    assert |"x"| == 1 && "x"[0] == 'x';
    assert TrimStartChar("x", '~') == "x";
  }

  lemma XRefused(line: string)
    requires IsException(line) && PatternValid(Pattern(line)) && OptionText(line) == "x"
    ensures Network(line) == Err(UnsupportedModifier)
  {
    XIsUnknown();
    SingleModifier(line, "x");
    UnknownRefused(Pattern(line), ModifierOf(true, "x"));
  }

  lemma SingleModifier(line: string, option: string)
    requires OptionText(line) == option && ',' !in option && option != ""
    ensures LineModifiers(line) == [ModifierOf(IsException(line), option)]
  {
    OneOption(option);
  }

  lemma UnknownRefused(pattern: string, m: Modifier)
    requires PatternValid(pattern) && m.meaning == Unsupported
    ensures Translate(pattern, true, [m]) == Err(UnsupportedModifier)
  {
    assert [m][..0] == [] && Combine([]) == Ok(NO_MODIFIERS);
    assert Combine([m]) == Step(NO_MODIFIERS, m);
  }

  lemma CostlyTranslated(raw: string, p: string)
    requires IsException(raw) && Pattern(raw) == p && AllOptions(raw) == ["elemhide", "x"]
    ensures Translated(raw) == Some("@@" + p + "$" + "x")
  {
    CostlyRemains(AllOptions(raw));
    HidingTranslates(raw, ["x"]);
    assert Join(["x"], ',') == "x";
  }

  lemma CostlyHides(raw: string, p: string)
    requires Pattern(raw) == p && AllOptions(raw) == ["elemhide", "x"]
    ensures |HidingExemption(raw).reasons| == 1 && HidingExemption(raw).hides == []
    ensures Guards(raw) == {Guard(p)}
  {
    CostlyNames();
    CostlyRemains(AllOptions(raw));
  }

  lemma GuardedEffect(raw: string, line: string, hiding: Effect)
    requires IsException(raw) && PatternValid(Pattern(raw)) && Network(line) == Err(UnsupportedModifier)
    requires |hiding.reasons| == 1 && hiding.hides == []
    ensures var e := Filtered(raw, Some(line), hiding);
            |e.reasons| == 3 && e.hides == [] && e.rules == Guards(raw)
  {
    TargetFrugal(raw, hiding);
  }

  ghost predicate ThreeReasons(e: Effect, r: Rule) {
    |e.reasons| == 3 && e.hides == [] && e.rules == {r}
  }

  lemma CostlyEffect(p: string)
    requires PatternValid(p)
    ensures ThreeReasons(LineEffect(Costly(p)), Guard(p))
  {
    var raw, line := Costly(p), "@@" + p + "$" + "x";
    GraphicIsAscii(p);
    CostlyOptions();
    ExampleParts(p, "elemhide" + "," + "x");
    CostlyTranslated(raw, p);
    CostlyHides(raw, p);
    CostlyNames();
    HidingReadBack(line, p, "x");
    XRefused(line);
    ExceptionForms(raw);
    FilterException(raw, true, Some(line));
    GuardedEffect(raw, line, HidingExemption(raw));
    FilterArm(raw, FormOf(raw));
  }

  lemma FirstLineSize(line: string, rest: string)
    ensures Utf8Len(line + ("\n" + rest)) == Utf8Len(line) + 1 + Utf8Len(rest)
  {
    Utf8LenConcat(line, "\n" + rest);
    assert ("\n" + rest)[1..] == rest;
  }

  lemma OneMore(line: string, n: nat)
    requires n > 0
    ensures [line] + seq(n - 1, _ => line) == seq(n, _ => line)
  {
  }

  lemma {:induction false} CopiesLines(line: string, n: nat)
    requires '\n' !in line && StripCr(line) == line
    ensures Lines(Copies(line, n)) == seq(n, _ => line)
  {
    if n > 0 {
      CopiesLines(line, n - 1);
      LinesCons(line, Copies(line, n - 1));
      OneMore(line, n);
    }
  }

  lemma {:induction false} CopiesSize(line: string, n: nat)
    requires Utf8Len(line) <= 26
    ensures Utf8Len(Copies(line, n)) <= n * 27
  {
    if n > 0 {
      CopiesSize(line, n - 1);
      FirstLineSize(line, Copies(line, n - 1));
    }
  }

  predicate OneLine(s: string) { forall c | c in s :: c as int < 0x80 && c != '\n' }

  lemma OneLineJoin(a: string, b: string)
    requires OneLine(a) && OneLine(b)
    ensures OneLine(a + b) && |a + b| == |a| + |b|
    ensures b != "" ==> (a + b)[|a + b| - 1] == b[|b| - 1]
    ensures a != "" ==> (a + b)[0] == a[0]
  {
  }

  lemma OneLineAscii(line: string)
    requires OneLine(line)
    ensures Ascii(line) && '\n' !in line
  {
    forall i | 0 <= i < |line| ensures line[i] as int < 0x80 { assert line[i] in line; }
  }

  lemma CleanLine(line: string)
    requires line != "" && line[0] == '@' && line[|line| - 1] == 'x'
    ensures StripCr(line) == line && Trim(line) == line
  {
    assert TrimStart(line) == line;
  }

  lemma CostlyOptionChars()
    ensures OneLine("elemhide" + "," + "x") && |"elemhide" + "," + "x"| == 10 && ("elemhide" + "," + "x")[9] == 'x'
  {
    assert |"elemhide"| == 8;
  }

  lemma CostlyText(p: string)
    requires PatternValid(p)
    ensures var line := Costly(p);
            '\n' !in line && StripCr(line) == line && Utf8Len(line) == |p| + 13 && Trim(line) == line
            && line != "" && line[0] == '@'
  {
    var options := "elemhide" + "," + "x";
    CostlyOptionChars();
    OneLineJoin(p, "$");
    OneLineJoin(p + "$", options);
    OneLineJoin("@@", p + "$" + options);
    OneLineAscii("@@" + (p + "$" + options));
    CleanLine("@@" + (p + "$" + options));
  }

  lemma CopiesRaws(line: string, n: nat)
    requires '\n' !in line && StripCr(line) == line && Trim(line) == line && line != "" && line[0] as int < 0x80
    ensures Raws(Copies(line, n)) == seq(n, _ => line)
  {
    CopiesLines(line, n);
    assert TrimBom(Copies(line, n)) == Copies(line, n);
    var lines := seq(n, _ => line);
    assert forall i | 0 <= i < n :: MapSeq(lines, Trim)[i] == line;
  }

  lemma {:induction false} CopiesCollect(e: Effect, r: Rule, n: nat)
    requires ThreeReasons(e, r)
    ensures var es := seq(n, _ => e);
            ReasonCount(es) == 3 * n && Collect(es).hides == [] && Collect(es).rules <= {r}
  {
    if n > 0 {
      var es := seq(n, _ => e);
      CopiesCollect(e, r, n - 1);
      assert es[..n - 1] == seq(n - 1, _ => e);
    }
  }

  lemma CopiesEffects(source: Source, line: string, n: nat)
    requires Raws(source.text) == seq(n, _ => line)
    ensures Effects([source]) == seq(n, _ => LineEffect(line)) && AllRaws([source]) == Raws(source.text)
  {
    assert [source][..0] == [];
    var es := EffectsOf(Raws(source.text));
    assert forall i | 0 <= i < n :: es[i] == LineEffect(line);
    assert Effects([]) == [] && AllRaws([]) == [];
  }

  lemma OneException(kept: set<Rule>, r: Rule, budget: nat, packed: set<Rule>)
    requires kept <= {r} && Packs(kept, packed) && budget >= 1
    ensures |Exceptions(packed)| <= budget
  {
    PackingShrinks(kept, packed);
    SubsetSize(kept, {r});
    SubsetSize(Exceptions(packed), packed);
  }

  lemma CopiesCompile(source: Source, e: Effect, r: Rule, n: nat, budget: nat)
    requires Effects([source]) == seq(n, _ => e) && ThreeReasons(e, r) && budget >= 1
    ensures !TooManyExceptions(Effects([source]), budget) && ReasonCount(Effects([source])) == 3 * n
  {
    CopiesCollect(e, r, n);
    var kept := Kept(Collect(Effects([source])));
    forall packed | Packs(kept, packed) ensures |Exceptions(packed)| <= budget { OneException(kept, r, budget, packed); }
  }

  lemma CopiesAcceptable(source: Source, line: string, n: nat, budget: nat)
    requires source.id == "easylist" && source.text == Copies(line, n) && '\n' !in line && StripCr(line) == line
    requires Utf8Len(line) <= 26 && n <= MAX_LINES && budget <= MAX_BUDGET
    ensures AcceptableSources([source], budget)
  {
    CopiesLines(line, n);
    CopiesSize(line, n);
    assert |Lines(source.text)| == n;
  }

  lemma TooManyReasons(sources: seq<Source>, budget: nat, out: Output)
    requires Compiled(sources, budget, out) && ReasonCount(Effects(sources)) > MAX_STAT
    ensures !ManifestAccepted(IdsOf(sources), budget, out)
  {
  }

  /** For every number of lines above 200,000 that a list may have, there are lists that compile but
      whose report is refused. */
  lemma ManyLinesRefused(p: string, n: nat, budget: nat, out: Output)
    requires PatternValid(p) && |p| <= 13 && FEW_LINES < n <= MAX_LINES && 1 <= budget <= MAX_BUDGET
    ensures var sources := [Source("easylist", Copies(Costly(p), n))];
            && AcceptableSources(sources, budget) && |AllRaws(sources)| == n
            && !TooManyExceptions(Effects(sources), budget)
            && (Compiled(sources, budget, out) ==> !ManifestAccepted(IdsOf(sources), budget, out))
  {
    var line := Costly(p);
    var source := Source("easylist", Copies(line, n));
    CostlyText(p);
    CostlyEffect(p);
    CopiesAcceptable(source, line, n, budget);
    CopiesRaws(line, n);
    CopiesEffects(source, line, n);
    CopiesCompile(source, LineEffect(line), Guard(p), n, budget);
    if Compiled([source], budget, out) { TooManyReasons([source], budget, out); }
  }
}
