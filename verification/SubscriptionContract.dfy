/** What the subscription compiler emits, the extension accepts; and its report adds up. */
module SubscriptionContract {
  import opened Text
  import opened Hosts
  import opened Dnr
  import opened NetworkFilter
  import opened Selector
  import opened Packing
  import opened SubscriptionLines
  import opened SubscriptionCompiler
  import Controller
  import NetworkMeaning
  import Validator
  import Diagnostics
  import Reasons

  // One translated filter

  ghost predicate Fine(r: Rule) {
    && Validator.ValidateAction(r, true) && Validator.ValidateTarget(r.condition, true)
    && Validator.ValidateKinds(r) && Validator.ValidateContext(r.condition, true)
  }

  predicate FineScope(scope: Scope) {
    Validator.Domains(scope.yes, MAX_SCOPE) && Validator.Domains(scope.no, MAX_SCOPE)
  }

  lemma NamedDomains(parts: seq<string>, items: seq<Item>, negated: bool)
    requires items == seq(|parts|, i requires 0 <= i < |parts| => ItemOf(parts[i])) && AllValid(items)
    ensures forall d | d in Named(items, negated) :: IsDomain(d)
  {
    forall d | d in Named(items, negated) ensures IsDomain(d) {
      var item :| item in items && item.negated == negated && item.domain == d;
      var i :| 0 <= i < |items| && items[i] == item;
      LowerHostIsDomain(StripPrefix(parts[i], "~"));
    }
  }

  lemma ScopesFine(value: string, delimiter: char)
    requires ScopesOf(value, delimiter).Ok?
    ensures FineScope(ScopesOf(value, delimiter).value)
  {
    if value != "" {
      NamedDomains(Split(value, delimiter), ItemsOf(value, delimiter), false);
      NamedDomains(Split(value, delimiter), ItemsOf(value, delimiter), true);
    }
  }

  predicate FineModifier(m: Modifier) { m.meaning.Domains? && m.meaning.scope.Ok? ==> FineScope(m.meaning.scope.value) }

  lemma ModifierFine(exception: bool, option: string)
    ensures FineModifier(ModifierOf(exception, option))
  {
    var meaning := MeaningOf(exception, option);
    if meaning.Domains? && meaning.scope.Ok? { ScopesFine(option[7..], '|'); }
  }

  lemma ModifiersFine(exception: bool, options: seq<string>)
    ensures forall m | m in ModifiersOf(exception, options) :: FineModifier(m)
  {
    forall m | m in ModifiersOf(exception, options) ensures FineModifier(m) {
      var i :| 0 <= i < |options| && ModifiersOf(exception, options)[i] == m;
      ModifierFine(exception, options[i]);
    }
  }

  predicate FineFilter(st: Filter) {
    Validator.Domains(st.initiators, MAX_SCOPE) && Validator.Domains(st.excludedInitiators, MAX_SCOPE)
  }

  lemma StepFine(before: Filter, m: Modifier)
    requires FineFilter(before) && FineModifier(m) && Step(before, m).Ok?
    ensures FineFilter(Step(before, m).value)
  {
  }

  lemma {:induction false} CombineFine(modifiers: seq<Modifier>)
    requires Combine(modifiers).Ok? && forall m | m in modifiers :: FineModifier(m)
    ensures FineFilter(Combine(modifiers).value)
    decreases |modifiers|
  {
    if modifiers != [] {
      var front, last := modifiers[..|modifiers| - 1], modifiers[|modifiers| - 1];
      CombineFine(front);
      assert last in modifiers;
      StepFine(Combine(front).value, last);
    }
  }

  lemma KindsFine(st: Filter, kinds: seq<Kind>)
    requires Validator.DistinctKinds(kinds) && MainFrame !in kinds
    ensures Validator.DistinctKinds(KindsFrom(st, kinds)) && MainFrame !in KindsFrom(st, kinds)
  {
    if kinds != [] {
      assert kinds == [kinds[0]] + kinds[1..];
      KindsFine(st, kinds[1..]);
      assert kinds[0] !in kinds[1..];
    }
  }

  lemma PatternFine(pattern: string)
    requires PatternValid(pattern)
    ensures Validator.Printable(pattern) && Utf8Len(pattern) <= Validator.MAX_RAW
  {
    forall i | 0 <= i < |pattern| ensures 0x21 <= pattern[i] as int <= 0x7e { assert pattern[i] in pattern; }
    assert Ascii(pattern);
  }

  lemma TranslationFine(pattern: string, exception: bool, modifiers: seq<Modifier>, rules: seq<Rule>)
    requires Translate(pattern, exception, modifiers) == Ok(rules)
    requires forall m | m in modifiers :: FineModifier(m)
    ensures forall r | r in rules :: Fine(r)
  {
    var st := Combine(modifiers).value;
    CombineFine(modifiers);
    PatternFine(pattern);
    RulesShape(pattern, exception, st, rules);
    Validator.TypeListsDistinct();
    NetworkMeaning.AllKinds(MainFrame);
    KindsFine(st, if st.positive == {} then RESOURCE_TYPES else SORTED_TYPES);
    FrameFine(pattern, st);
    PlainFine(pattern, exception, st);
    forall r | r in rules ensures Fine(r) { assert r == FrameRule(pattern, st) || r == PlainRule(pattern, exception, st); }
  }

  lemma FrameFine(pattern: string, st: Filter)
    requires FineFilter(st)
    requires Validator.Printable(pattern) && Utf8Len(pattern) <= Validator.MAX_RAW
    ensures Fine(FrameRule(pattern, st))
  {
  }

  lemma PlainFine(pattern: string, exception: bool, st: Filter)
    requires FineFilter(st)
    requires Validator.Printable(pattern) && Utf8Len(pattern) <= Validator.MAX_RAW
    requires Kinds(st) != [] && Validator.DistinctKinds(Kinds(st)) && MainFrame !in Kinds(st)
    ensures Fine(PlainRule(pattern, exception, st))
  {
  }

  lemma GuardsFine(raw: string)
    requires PatternValid(Pattern(raw))
    ensures forall r | r in Guards(raw) :: Fine(r)
  {
    PatternFine(Pattern(raw));
    Validator.TypeListsDistinct();
    NetworkMeaning.AllKinds(MainFrame);
    GuardFine(Pattern(raw));
  }

  lemma GuardFine(pattern: string)
    requires Validator.Printable(pattern) && Utf8Len(pattern) <= Validator.MAX_RAW
    requires Validator.DistinctKinds(RESOURCE_TYPES) && MainFrame !in RESOURCE_TYPES
    ensures Fine(Guard(pattern)) && Fine(FrameGuard(pattern))
  {
  }

  lemma NetworkFine(raw: string, rules: seq<Rule>)
    requires Network(raw) == Ok(rules)
    ensures forall r | r in rules :: Fine(r)
  {
    ModifiersFine(IsException(raw), Options(raw));
    TranslationFine(Pattern(raw), IsException(raw), LineModifiers(raw), rules);
  }

  // One line

  ghost predicate FineRules(e: Effect) { forall r | r in e.rules :: Fine(r) }

  lemma NetworkEffectFine(raw: string, line: string, effect: Effect)
    requires effect.rules == {}
    ensures FineRules(NetworkEffect(raw, line, effect))
  {
    match Network(line) {
      case Ok(rules) => NetworkFine(line, rules);
      case Err(_) =>
        if PatternValid(Pattern(raw)) { GuardsFine(raw); }
    }
  }

  lemma FilterFine(raw: string)
    ensures FineRules(FilterLine(raw))
  {
    HidingExemptionShape(raw);
    var hiding := if IsException(raw) then HidingExemption(raw) else NOTHING;
    match Translated(raw) {
      case None =>
      case Some(line) => NetworkEffectFine(raw, line, DocumentTarget(raw, hiding));
    }
  }

  lemma LineFine(raw: string, form: Form)
    ensures FineRules(EffectOf(raw, form))
  {
    if form == FilterForm {
      FilterArm(raw, form);
      FilterFine(raw);
    } else {
      NoRulesElsewhere(raw, form);
    }
  }

  // The emitted rules

  lemma KeptFine(sources: seq<Source>)
    ensures forall r | r in Kept(Collect(Effects(sources))) :: Fine(r)
  {
    CollectGathers(Effects(sources));
    EffectsOfRaws(sources);
    forall r | r in Kept(Collect(Effects(sources))) ensures Fine(r) {
      var e :| e in Effects(sources) && r in e.rules;
      EffectFrom(AllRaws(sources), e);
      var raw :| raw in AllRaws(sources) && e == LineEffect(raw);
      LineFine(raw, FormOf(raw));
    }
  }

  lemma PackedFine(kept: set<Rule>, packed: set<Rule>)
    requires Packs(kept, packed) && forall r | r in kept :: Fine(r)
    ensures forall r | r in packed :: Fine(r)
  {
    forall p | p in packed ensures Fine(p) {
      if p.condition.requestDomains == {} {
        assert p in Loose(kept);
      } else {
        var hosts := GroupHosts(kept, WithHosts(p, {}));
        assert p.condition.requestDomains <= hosts;
        var host :| host in p.condition.requestDomains;
        assert host in hosts;
        var r :| r in kept && HostOf(r).Some? && Template(r) == WithHosts(p, {});
        GroupDomains(kept, WithHosts(p, {}));
        GroupFine(p, r);
      }
    }
  }

  lemma GroupDomains(kept: set<Rule>, template: Rule)
    ensures forall d | d in GroupHosts(kept, template) :: IsDomain(d)
  {
    forall d | d in GroupHosts(kept, template) ensures IsDomain(d) {
      var r :| r in kept && HostOf(r).Some? && Template(r) == template && Lower(HostOf(r).value) == d;
      LowerHostIsDomain(HostOf(r).value);
    }
  }

  lemma GroupFine(p: Rule, r: Rule)
    requires Fine(r) && Template(r) == WithHosts(p, {})
    requires p.condition.requestDomains != {} && p.condition.urlFilter.None?
    requires Validator.Domains(p.condition.requestDomains, Validator.MAX_REQUEST_DOMAINS)
    ensures Fine(p)
  {
    assert p.action == Template(r).action == r.action;
    assert p.priority == r.priority;
    assert p.condition.resourceTypes == Template(r).condition.resourceTypes == r.condition.resourceTypes;
    assert p.condition.initiators == Template(r).condition.initiators == r.condition.initiators;
    assert p.condition.excludedInitiators == Template(r).condition.excludedInitiators == r.condition.excludedInitiators;
  }

  /** The rules as they are sent: numbered from one. */
  function Numbered(rules: seq<Rule>): seq<Controller.BrowserRule> {
    seq(|rules|, i requires 0 <= i < |rules| => Controller.BrowserRule(i + 1, rules[i]))
  }

  lemma UsableFine(packed: set<Rule>, suppressBlocks: bool, budget: nat, rules: seq<Rule>)
    requires Emission(Usable(packed, suppressBlocks), budget, rules)
    requires forall r | r in packed :: Fine(r)
    ensures |rules| <= budget && forall i | 0 <= i < |rules| :: Fine(rules[i])
  {
    forall i | 0 <= i < |rules| ensures Fine(rules[i]) {
      assert rules[i] in rules;
      assert rules[i] in Usable(packed, suppressBlocks);
    }
  }

  lemma EmittedFine(kept: set<Rule>, suppressBlocks: bool, budget: nat, out: Emitted)
    requires EmissionOf(kept, suppressBlocks, budget, out) && forall r | r in kept :: Fine(r)
    ensures |out.rules| <= budget && forall i | 0 <= i < |out.rules| :: Fine(out.rules[i])
    ensures out.supported == |out.rules| + out.dropped
  {
    var packed :| Packs(kept, packed) && EmissionFrom(packed, suppressBlocks, budget, out);
    PackedFine(kept, packed);
    UsableFine(packed, suppressBlocks, budget, out.rules);
  }

  /** Every network rule of a subscription compilation passes the extension's own validation, and
      their number fits the budget. */
  lemma NetworkContract(sources: seq<Source>, budget: nat, out: Output)
    requires budget <= MAX_BUDGET && Compiles(Effects(sources), budget, out)
    ensures |out.rules| <= budget && out.networkSupported == |out.rules| + out.networkDropped
    ensures NetworkAccepted(out.rules)
  {
    var st := Collect(Effects(sources));
    KeptFine(sources);
    SideFine(Kept(st), st.suppressBlocks, budget, OmittedCount(ScopeAll(st)), out);
  }

  lemma SideFine(kept: set<Rule>, suppressBlocks: bool, budget: nat, omitted: nat, out: Output)
    requires budget <= MAX_BUDGET && NetworkSide(kept, suppressBlocks, budget, omitted, out)
    requires forall r | r in kept :: Fine(r)
    ensures |out.rules| <= budget && out.networkSupported == |out.rules| + out.networkDropped
    ensures NetworkAccepted(out.rules)
  {
    EmittedFine(kept, suppressBlocks, budget,
                Emitted(out.rules, out.networkSupported, out.networkDropped, out.safetySuppressed - omitted));
    NumberedAccepted(out.rules);
  }

  lemma NumberedAccepted(rules: seq<Rule>)
    requires |rules| <= MAX_BUDGET && forall i | 0 <= i < |rules| :: Fine(rules[i])
    ensures NetworkAccepted(rules)
  {
    var sent := Numbered(rules);
    forall i | 0 <= i < |sent| ensures Validator.ValidateNetwork(sent[i], true) {
      assert sent[i] == Controller.BrowserRule(i + 1, rules[i]) && Fine(rules[i]);
    }
  }

  // The hiding rules

  ghost predicate FineDomains(e: Effect) {
    && (forall h | h in e.hides :: Validator.Domains(h.domains, MAX_SCOPE) && (forall d | d in h.excluded :: IsDomain(d))
                                   && ValidSelector(h.selector))
    && (forall x | x in e.exempt :: IsDomain(x.1))
    && (forall d | d in e.allExcluded :: IsDomain(d))
    && (forall d | d in e.genericExcluded :: IsDomain(d))
  }

  lemma CosmeticFine(scope: string, selector: string)
    ensures FineDomains(CosmeticRule(scope, selector))
  {
    if ScopesOf(scope, ',').Ok? { ScopesFine(scope, ','); }
    if ValidSelector(selector) { CanonicalValid(selector); }
    RuleDomains(scope, selector, ScopesOf(scope, ','), Canonical(selector));
  }

  lemma RuleDomains(scope: string, selector: string, parsed: Result<Scope>, canonical: string)
    requires parsed == ScopesOf(scope, ',') && canonical == Canonical(selector)
    requires parsed.Ok? ==> FineScope(parsed.value)
    requires ValidSelector(selector) ==> ValidSelector(canonical)
    ensures FineDomains(CosmeticRule(scope, selector))
  {
  }

  lemma CosmeticExceptionFine(scope: string, selector: string)
    ensures FineDomains(CosmeticException(scope, selector))
  {
    if ScopesOf(scope, ',').Ok? { ScopesFine(scope, ','); }
  }

  lemma PagesFine(raw: string)
    requires ExemptPages(raw).Some?
    ensures forall d | d in ExemptPages(raw).value :: IsDomain(d)
  {
    match FirstDomainOption(AllOptions(raw)) {
      case Some(value) => if ScopesOf(value, '|').Ok? { ScopesFine(value, '|'); }
      case None => AnchoredFine(Pattern(raw));
    }
  }

  lemma AnchoredFine(pattern: string)
    ensures AnchoredHost(pattern).Some? ==> IsDomain(AnchoredHost(pattern).value)
  {
    if AnchoredHost(pattern).Some? {
      var rest := pattern[2..];
      var caret, slash := IndexOf(rest, '^'), IndexOf(rest, '/');
      LowerHostIsDomain(rest[..if caret < slash then caret else slash]);
    }
  }

  lemma ExemptionFine(raw: string)
    ensures FineDomains(HidingExemption(raw))
  {
    if ExemptPages(raw).Some? { PagesFine(raw); }
  }

  lemma NetworkKeepsDomains(raw: string, line: string, e: Effect)
    requires FineDomains(e)
    ensures FineDomains(NetworkEffect(raw, line, e))
  {
  }

  lemma FilterDomainsFine(raw: string)
    ensures FineDomains(FilterLine(raw))
  {
    var hiding := if IsException(raw) then HidingExemption(raw) else NOTHING;
    ExemptionFine(raw);
    match Translated(raw) {
      case None =>
      case Some(line) =>
        AnchoredFine(Pattern(raw));
        NetworkKeepsDomains(raw, line, DocumentTarget(raw, hiding));
    }
  }

  lemma LineDomainsFine(raw: string, form: Form)
    ensures FineDomains(EffectOf(raw, form))
  {
    if form.ExceptionForm? {
      CosmeticExceptionFine(form.scope, form.selector);
    } else if form.RuleForm? {
      CosmeticFine(form.scope, form.selector);
    } else if form.FilterForm? {
      FilterDomainsFine(raw);
    }
  }

  lemma StateFine(es: seq<Effect>, st: State)
    requires Gathers(es, st) && forall e | e in es :: FineDomains(e)
    ensures forall d | d in st.allExcluded + st.genericExcluded :: IsDomain(d)
    ensures forall x | x in st.exempt :: IsDomain(x.1)
    ensures forall h | h in st.hides ::
              Validator.Domains(h.domains, MAX_SCOPE) && ValidSelector(h.selector) && forall d | d in h.excluded :: IsDomain(d)
  {
  }

  lemma ShownFine(st: State, c: Cosmetic)
    requires c in Cosmetics(ScopeAll(st))
    requires forall d | d in st.allExcluded + st.genericExcluded :: IsDomain(d)
    requires forall x | x in st.exempt :: IsDomain(x.1)
    requires forall h | h in st.hides ::
               Validator.Domains(h.domains, MAX_SCOPE) && ValidSelector(h.selector) && forall d | d in h.excluded :: IsDomain(d)
    ensures Validator.Domains(c.domains, MAX_SCOPE) && Validator.Domains(c.excluded, MAX_DOMAINS) && ValidSelector(c.selector)
  {
    var s :| s in ScopeAll(st) && !s.omitted && s.cosmetic == c;
    var i :| 0 <= i < |st.hides| && ScopeAll(st)[i] == s;
    var h := st.hides[i];
    assert h in st.hides && c == CosmeticOf(st, h) && !Omitted(st, h);
    forall d | d in c.excluded ensures IsDomain(d) {
      if d in ExemptFor(st, h.selector) {
        var x :| x in st.exempt && x.0 == h.selector && x.1 == d;
      }
    }
  }

  /** A line that contributes a hiding rule fits the extension's limit on raw text: longer lines
      are refused, except marked ones, and those never contribute. */
  lemma HideLineFits(raw: string)
    requires LineEffect(raw).hides != []
    ensures Utf8Len(raw) <= Validator.MAX_RAW
  {
    if Utf8Len(raw) > Validator.MAX_RAW {
      LongRuleForm(raw);
      LongLineHides(raw, FormOf(raw));
    }
  }

  /** Only a marked line can be long and still be read as a hiding rule. */
  lemma LongRuleForm(raw: string)
    requires Utf8Len(raw) > MAX_LINE
    ensures match FormOf(raw)
            case RuleForm(scope, selector) => IsException(raw) && SplitOnce(raw, "##") == Some((scope, selector))
            case _ => true
  {
  }

  lemma LongLineHides(raw: string, form: Form)
    requires form.RuleForm? ==> IsException(raw) && SplitOnce(raw, "##") == Some((form.scope, form.selector))
    ensures EffectOf(raw, form).hides == []
  {
    if form.RuleForm? {
      MarkedScope(raw, form.scope, form.selector);
      RuleArm(raw, form);
    } else if form.FilterForm? {
      FilterHidesNothing(raw);
      FilterArm(raw, form);
    } else {
      NoHidesElsewhere(raw, form);
    }
  }

  lemma RuleArm(raw: string, form: Form)
    requires form.RuleForm?
    ensures EffectOf(raw, form).hides == CosmeticRule(form.scope, form.selector).hides
  {
  }

  lemma NoHidesElsewhere(raw: string, form: Form)
    requires !form.RuleForm? && !form.FilterForm?
    ensures EffectOf(raw, form).hides == []
  {
    if form.BadfilterForm? {
      BadfilterHidesNothing(raw);
      BadfilterArm(raw, form);
    }
  }

  lemma BadfilterHidesNothing(raw: string)
    ensures Badfilter(raw).hides == []
  {
  }

  lemma FilterHidesNothing(raw: string)
    ensures FilterLine(raw).hides == []
  {
    HidingExemptionShape(raw);
    match Translated(raw) {
      case None =>
      case Some(line) =>
        NetworkHidesNothing(raw, line, DocumentTarget(raw, if IsException(raw) then HidingExemption(raw) else NOTHING));
    }
  }

  lemma NetworkHidesNothing(raw: string, line: string, e: Effect)
    requires e.hides == []
    ensures NetworkEffect(raw, line, e).hides == []
  {
  }

  lemma MarkedScope(raw: string, scope: string, selector: string)
    requires SplitOnce(raw, "##") == Some((scope, selector)) && IsException(raw)
    ensures CosmeticRule(scope, selector).hides == []
  {
    SplitOnceJoins(raw, "##");
    assert raw == scope + "##" + selector;
    assert raw[0] == '@' && raw[1] == '@';
    assert raw[|scope|] == '#';
    assert scope[0] == '@';
    BadScopeRefused(scope);
  }

  lemma BadScopeRefused(scope: string)
    requires scope != "" && scope[0] == '@'
    ensures ScopesOf(scope, ',').Err?
  {
    var parts, n := Split(scope, ','), IndexOf(scope, ',');
    assert parts[0] == scope[..n] && n > 0;
    assert parts[0][0] == '@';
    var item := ItemOf(parts[0]);
    assert item == ItemsOf(scope, ',')[0] && item in ItemsOf(scope, ',');
    assert StripPrefix(parts[0], "~") == parts[0];
    assert '@' in parts[0];
    if HostValid(parts[0]) { HostChars(parts[0]); }
  }

  /** Every hiding rule of a subscription compilation passes the extension's own validation, but
      for its raw text and source name. */
  lemma CosmeticContract(sources: seq<Source>, budget: nat, out: Output, c: Cosmetic)
    requires Compiles(Effects(sources), budget, out) && c in out.cosmetics
    ensures Validator.Domains(c.domains, MAX_SCOPE) && Validator.Domains(c.excluded, MAX_DOMAINS) && ValidSelector(c.selector)
  {
    var es := Effects(sources);
    CollectGathers(es);
    EffectsOfRaws(sources);
    forall e | e in es ensures FineDomains(e) {
      EffectFrom(AllRaws(sources), e);
      var raw :| raw in AllRaws(sources) && e == LineEffect(raw);
      LineDomainsFine(raw, FormOf(raw));
    }
    StateFine(es, Collect(es));
    ShownFine(Collect(es), c);
  }

  // The report

  function CosmeticLines(listStats: seq<ListStats>): nat {
    if listStats == [] then 0 else CosmeticLines(listStats[..|listStats| - 1]) + listStats[|listStats| - 1].cosmetic
  }

  lemma LinesCount(source: Source)
    ensures var stats, es := StatOf(source), EffectsOf(Raws(source.text));
            && stats.id == source.id && stats.cosmetic == |Collect(es).hides|
            && stats.network + stats.cosmetic + stats.unsupported + stats.ignored == |Raws(source.text)|
  {
    var raws := Raws(source.text);
    LinesShaped(raws);
    EveryLineCounted(source.id, EffectsOf(raws));
  }

  lemma {:induction false} CosmeticsSum(sources: seq<Source>)
    ensures CosmeticLines(StatsOf(sources)) == |Collect(Effects(sources)).hides|
  {
    if sources != [] {
      var front, last := sources[..|sources| - 1], sources[|sources| - 1];
      CosmeticsSum(front);
      LinesCount(last);
      CountsConcat(Effects(front), EffectsOf(Raws(last.text)));
    }
  }

  /** The report adds up: supported hiding rules are the accepted lines of all lists, each either
      emitted, dropped over the limit, left out for an exemption or a repetition. */
  lemma CosmeticsConserved(sources: seq<Source>, budget: nat, out: Output)
    requires Compiles(Effects(sources), budget, out) && out.listStats == StatsOf(sources)
    ensures out.cosmeticSupported == CosmeticLines(out.listStats)
    ensures out.cosmeticSupported >= |out.cosmetics| + out.cosmeticDropped + OmittedCount(ScopeAll(Collect(Effects(sources))))
    ensures |out.cosmetics| <= MAX_COSMETIC
    ensures out.safetySuppressed >= OmittedCount(ScopeAll(Collect(Effects(sources))))
  {
    CosmeticsSum(sources);
  }

  function StatOf(source: Source): ListStats { CountLines(source.id, EffectsOf(Raws(source.text))) }

  lemma StatsLast(sources: seq<Source>)
    requires sources != []
    ensures StatsOf(sources) == StatsOf(sources[..|sources| - 1]) + [StatOf(sources[|sources| - 1])]
  {
  }

  lemma MapLast(sources: seq<Source>, f: Source -> ListStats)
    requires sources != []
    ensures MapSeq(sources, f) == MapSeq(sources[..|sources| - 1], f) + [f(sources[|sources| - 1])]
  {
  }

  lemma {:induction false} StatsAre(sources: seq<Source>)
    ensures StatsOf(sources) == MapSeq(sources, StatOf)
  {
    if sources != [] {
      StatsAre(sources[..|sources| - 1]);
      StatsLast(sources);
      MapLast(sources, StatOf);
    }
  }

  /** Each list's statistics count each of its lines once. */
  lemma ListStatsCount(sources: seq<Source>, i: nat)
    requires i < |sources|
    ensures |StatsOf(sources)| == |sources|
    ensures var stats := StatsOf(sources)[i];
            && stats.id == sources[i].id
            && stats.network + stats.cosmetic + stats.unsupported + stats.ignored == |Raws(sources[i].text)|
  {
    StatsAre(sources);
    LinesCount(sources[i]);
  }

  // The lines that go with the output

  const MAX_STAT := 600_002

  lemma LinesWithoutFirst(s: string)
    requires s != "" && s[0] != '\n'
    ensures |Lines(s[1..])| <= |Lines(s)|
  {
    var n := IndexOf(s, '\n');
    assert IndexOf(s[1..], '\n') == n - 1;
    if n < |s| { assert s[1..][n..] == s[n + 1..]; }
  }

  lemma {:induction false} LinesTrimmed(s: string, c: char)
    requires c != '\n'
    ensures |Lines(TrimStartChar(s, c))| <= |Lines(s)|
    decreases |s|
  {
    if s != "" && s[0] == c {
      LinesWithoutFirst(s);
      LinesTrimmed(s[1..], c);
    }
  }

  lemma RawsBounded(source: Source)
    requires |Lines(source.text)| <= MAX_LINES
    ensures |Raws(source.text)| <= MAX_LINES
  {
    LinesTrimmed(source.text, 0xFEFF as char);
  }

  predicate SourceId(id: string) { id in ["easylist", "easyprivacy"] }

  lemma SourceIdFits(id: string)
    requires SourceId(id)
    ensures Utf8Len(id) <= Validator.MAX_SOURCE
  {
    assert Ascii("easylist") && Ascii("easyprivacy");
  }

  predicate GoodPlace(at: Origin) { SourceId(at.source) && 1 <= at.line <= MAX_LINES }

  predicate GoodEntry(e: Diagnostics.Entry) {
    SourceId(e.source) && Validator.ValidateDiagnostic(e.line, e.raw)
  }

  lemma EntriesGood(at: Origin, reasons: seq<Reasons.Reason>)
    requires GoodPlace(at)
    ensures forall e | e in EntriesOf(at, reasons) :: GoodEntry(e)
  {
  }

  lemma {:induction false} ReportedGood(id: string, raws: seq<string>, es: seq<Effect>)
    requires |raws| == |es| <= MAX_LINES && SourceId(id)
    ensures forall e | e in Reported(id, raws, es) :: GoodEntry(e)
  {
    if es != [] {
      var n := |es| - 1;
      ReportedGood(id, raws[..n], es[..n]);
      EntriesGood(Origin(id, n + 1, raws[n]), es[n].reasons);
    }
  }

  ghost predicate BoundedSources(sources: seq<Source>) {
    forall i | 0 <= i < |sources| :: SourceId(sources[i].id) && |Lines(sources[i].text)| <= MAX_LINES
  }

  lemma {:induction false} AllReportedGood(sources: seq<Source>)
    requires BoundedSources(sources)
    ensures forall e | e in AllReported(sources) :: GoodEntry(e)
  {
    if sources != [] {
      var last := sources[|sources| - 1];
      AllReportedGood(sources[..|sources| - 1]);
      RawsBounded(last);
      ReportedGood(last.id, Raws(last.text), EffectsOf(Raws(last.text)));
    }
  }

  /** A hiding rule and a line that contributes it. */
  ghost predicate From(h: Hide, at: Origin) { GoodPlace(at) && h in LineEffect(at.raw).hides }

  ghost predicate AllFrom(hides: seq<Hide>, origins: seq<Origin>) {
    |hides| == |origins| && forall k | 0 <= k < |hides| :: From(hides[k], origins[k])
  }

  lemma AllFromJoin(a: seq<Hide>, b: seq<Hide>, x: seq<Origin>, y: seq<Origin>)
    requires AllFrom(a, x) && AllFrom(b, y)
    ensures AllFrom(a + b, x + y)
  {
  }

  lemma LineFrom(hides: seq<Hide>, at: Origin)
    requires GoodPlace(at) && hides == LineEffect(at.raw).hides
    ensures AllFrom(hides, Repeat(at, |hides|))
  {
    forall k | 0 <= k < |hides| ensures From(hides[k], Repeat(at, |hides|)[k]) { assert hides[k] in hides; }
  }

  lemma {:induction false} LinesFrom(id: string, raws: seq<string>, es: seq<Effect>)
    requires |raws| == |es| <= MAX_LINES && SourceId(id)
    requires forall i | 0 <= i < |es| :: es[i] == LineEffect(raws[i])
    ensures AllFrom(Collect(es).hides, HidesFrom(id, raws, es))
  {
    if es != [] {
      var n := |es| - 1;
      LinesFrom(id, raws[..n], es[..n]);
      LineFrom(es[n].hides, Origin(id, n + 1, raws[n]));
      AllFromJoin(Collect(es[..n]).hides, es[n].hides, HidesFrom(id, raws[..n], es[..n]),
                  Repeat(Origin(id, n + 1, raws[n]), |es[n].hides|));
    }
  }

  lemma SourceFrom(source: Source)
    requires SourceId(source.id) && |Lines(source.text)| <= MAX_LINES
    ensures var raws := Raws(source.text);
            AllFrom(Collect(EffectsOf(raws)).hides, HidesFrom(source.id, raws, EffectsOf(raws)))
  {
    RawsBounded(source);
    LinesFrom(source.id, Raws(source.text), EffectsOf(Raws(source.text)));
  }

  lemma {:induction false} SourcesFrom(sources: seq<Source>)
    requires BoundedSources(sources)
    ensures AllFrom(Collect(Effects(sources)).hides, AllHidesFrom(sources))
  {
    if sources != [] {
      var front, last := sources[..|sources| - 1], sources[|sources| - 1];
      SourcesFrom(front);
      SourceFrom(last);
      CountsConcat(Effects(front), EffectsOf(Raws(last.text)));
      AllFromJoin(Collect(Effects(front)).hides, Collect(EffectsOf(Raws(last.text))).hides, AllHidesFrom(front),
                  HidesFrom(last.id, Raws(last.text), EffectsOf(Raws(last.text))));
    }
  }

  lemma {:induction false} OmittedGood(scoped: seq<Scoped>, origins: seq<Origin>)
    requires |origins| == |scoped| && forall i | 0 <= i < |origins| :: GoodPlace(origins[i])
    ensures forall e | e in OmittedEntries(scoped, origins) :: GoodEntry(e)
  {
    if scoped != [] { OmittedGood(scoped[..|scoped| - 1], origins[..|scoped| - 1]); }
  }

  lemma {:induction false} SampleFrom(log: seq<Diagnostics.Entry>)
    ensures forall e | e in Diagnostics.Sample(log) :: e in log
  {
    if log != [] {
      SampleFrom(log[..|log| - 1]);
      assert log == log[..|log| - 1] + [log[|log| - 1]];
    }
  }

  /** The text of an emitted hiding rule is a line that contributes it, but for exclusions. */
  ghost predicate Texted(c: Cosmetic, at: Origin) {
    GoodPlace(at) && exists h :: h in LineEffect(at.raw).hides && h.domains == c.domains && h.selector == c.selector
  }

  lemma OriginTexted(st: State, origins: seq<Origin>, c: Cosmetic, i: nat)
    requires AllFrom(st.hides, origins) && i < |st.hides| && ScopeAll(st)[i] == Scoped(c, false)
    ensures Texted(c, origins[i])
  {
    assert From(st.hides[i], origins[i]);
    assert ScopeAll(st)[i] == ScopeOf(st, st.hides[i]);
  }

  lemma OriginsTexted(st: State, origins: seq<Origin>, kept: map<Cosmetic, Origin>)
    requires AllFrom(st.hides, origins) && FirstOrigins(ScopeAll(st), origins, kept)
    ensures forall c | c in kept :: Texted(c, kept[c])
  {
    forall c | c in kept ensures Texted(c, kept[c]) {
      var i :| FirstEmitted(ScopeAll(st), i, c) && kept[c] == origins[i];
      OriginTexted(st, origins, c, i);
    }
  }

  lemma TextFits(c: Cosmetic, at: Origin)
    requires Texted(c, at)
    ensures Utf8Len(at.raw) <= Validator.MAX_RAW && Utf8Len(at.source) <= Validator.MAX_SOURCE
  {
    HideLineFits(at.raw);
    SourceIdFits(at.source);
  }

  lemma ThreeIds(a: string, b: string, c: string)
    requires SourceId(a) && SourceId(b) && SourceId(c)
    ensures a == b || a == c || b == c
  {
  }

  lemma FewSources(sources: seq<Source>, budget: nat)
    requires AcceptableSources(sources, budget)
    ensures |sources| <= 2 && BoundedSources(sources)
  {
    if |sources| > 2 {
      ThreeIds(sources[0].id, sources[1].id, sources[2].id);
    }
  }

  lemma {:induction false} StatsBounded(sources: seq<Source>)
    requires BoundedSources(sources)
    ensures UnsupportedTotal(StatsOf(sources)) <= |sources| * MAX_LINES && IgnoredTotal(StatsOf(sources)) <= |sources| * MAX_LINES
  {
    if sources != [] {
      var front, last := sources[..|sources| - 1], sources[|sources| - 1];
      StatsBounded(front);
      LinesCount(last);
      RawsBounded(last);
      StatsLast(sources);
      assert StatsOf(sources)[..|StatsOf(front)|] == StatsOf(front);
    }
  }

  /** `validateCompilation` for subscriptions. */
  ghost predicate Accepted(out: Output) {
    && |out.rules| <= MAX_BUDGET && |out.cosmetics| <= MAX_COSMETIC && |out.samples| <= Diagnostics.MAX_SAMPLES
    && NetworkAccepted(out.rules)
    && CosmeticsAccepted(out.cosmetics, out.origins)
    && (forall i | 0 <= i < |out.samples| :: SampleAccepted(out.samples[i]))
    && out.unsupported <= MAX_STAT && out.ignored <= MAX_STAT
  }

  ghost predicate NetworkAccepted(rules: seq<Rule>) {
    var sent := Numbered(rules);
    Validator.DistinctIds(sent) && forall i | 0 <= i < |sent| :: Validator.ValidateNetwork(sent[i], true)
  }

  ghost predicate CosmeticsAccepted(cosmetics: set<Cosmetic>, origins: map<Cosmetic, Origin>) {
    origins.Keys == cosmetics
    && forall c | c in origins ::
         Validator.ValidateCosmetic(c.domains, c.excluded, c.selector, origins[c].raw, origins[c].source, true)
  }

  predicate SampleAccepted(e: Diagnostics.Entry) {
    Validator.ValidateDiagnostic(e.line, e.raw) && Utf8Len(e.source) <= Validator.MAX_SOURCE
  }

  lemma SamplesAccepted(log: seq<Diagnostics.Entry>)
    requires forall e | e in log :: GoodEntry(e)
    ensures forall e | e in Diagnostics.Sample(log) :: SampleAccepted(e)
  {
    SampleFrom(log);
    forall e | e in Diagnostics.Sample(log) ensures SampleAccepted(e) { SourceIdFits(e.source); }
  }

  lemma HidesAccepted(sources: seq<Source>, budget: nat, out: Output)
    requires Compiles(Effects(sources), budget, out) && out.origins.Keys == out.cosmetics
    requires forall c | c in out.origins :: Texted(c, out.origins[c])
    ensures CosmeticsAccepted(out.cosmetics, out.origins)
  {
    forall c | c in out.origins
      ensures Validator.ValidateCosmetic(c.domains, c.excluded, c.selector, out.origins[c].raw, out.origins[c].source, true)
    {
      CosmeticContract(sources, budget, out, c);
      TextFits(c, out.origins[c]);
    }
  }

  /** The output and its texts, for sources within bounds. */
  lemma TextsAccepted(sources: seq<Source>, out: Output)
    requires BoundedSources(sources) && out.listStats == StatsOf(sources)
    requires Annotated(AllReported(sources), ScopeAll(Collect(Effects(sources))), AllHidesFrom(sources), out)
    ensures forall c | c in out.origins :: Texted(c, out.origins[c])
    ensures |out.samples| <= Diagnostics.MAX_SAMPLES && forall e | e in out.samples :: SampleAccepted(e)
  {
    var st, origins := Collect(Effects(sources)), AllHidesFrom(sources);
    var log := AllReported(sources) + OmittedEntries(ScopeAll(st), origins);
    SourcesFrom(sources);
    OriginsTexted(st, origins, out.origins);
    AllReportedGood(sources);
    OmittedGood(ScopeAll(st), origins);
    SamplesAccepted(log);
    Diagnostics.SampleBounds(log, Reasons.BadScope);
  }

  /** Whatever compiles, the extension accepts as a whole. */
  lemma SubscriptionAccepted(sources: seq<Source>, budget: nat, out: Output)
    requires AcceptableSources(sources, budget) && Compiles(Effects(sources), budget, out) && out.listStats == StatsOf(sources)
    requires Annotated(AllReported(sources), ScopeAll(Collect(Effects(sources))), AllHidesFrom(sources), out)
    ensures Accepted(out)
    ensures forall c | c in out.cosmetics :: c in out.origins && Texted(c, out.origins[c])
  {
    FewSources(sources, budget);
    TextsAccepted(sources, out);
    HidesAccepted(sources, budget, out);
    NetworkContract(sources, budget, out);
    CosmeticsConserved(sources, budget, out);
    StatsBounded(sources);
  }
}
