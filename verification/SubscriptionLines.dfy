/** What one line of a subscription list contributes to a compilation. */
module SubscriptionLines {
  import opened Text
  import opened Dnr
  import opened NetworkFilter
  import opened Selector
  import opened Reasons

  const MAX_LINE := 2048

  datatype LineClass = NetworkLine | CosmeticLine | UnsupportedLine | IgnoredLine

  /** A hiding rule with its own scope. */
  datatype Hide = Hide(domains: set<string>, excluded: set<string>, selector: string)

  datatype Effect = Effect(
    class_: LineClass,
    rules: set<Rule>,
    cancelled: set<Rule>,
    suppressBlocks: bool,
    hides: seq<Hide>,
    /** Scoped cosmetic exceptions: selector and domain. */
    exempt: set<(string, string)>,
    /** Selectors of cosmetic exceptions without a usable scope. */
    suppressed: set<string>,
    genericExcluded: set<string>,
    allExcluded: set<string>,
    suppressGeneric: bool,
    suppressCosmetic: bool,
    reasons: seq<Reason>)

  const NOTHING := Effect(IgnoredLine, {}, {}, false, [], {}, {}, {}, {}, false, false, [])

  function Rejected(reason: Reason): Effect {
    NOTHING.(class_ := UnsupportedLine, reasons := [reason])
  }

  function RuleSet(rules: seq<Rule>): set<Rule> { set r | r in rules }

  /** A scope with included domains and no excluded ones. */
  function PlainScope(scope: Result<Scope>): Option<set<string>> {
    if scope.Ok? && scope.value.yes != {} && scope.value.no == {} then Some(scope.value.yes) else None
  }

  // Cosmetic lines

  function CosmeticException(scope: string, selector: string): Effect {
    if !ValidSelector(selector) then Rejected(BadExceptionSelector) else
      var canonical := Canonical(selector);
      match PlainScope(ScopesOf(scope, ','))
      case Some(domains) => NOTHING.(exempt := set d | d in domains :: (canonical, d))
      case None => NOTHING.(suppressed := {canonical})
  }

  function CosmeticRule(scope: string, selector: string): Effect {
    var parsed := ScopesOf(scope, ',');
    if ValidSelector(selector) && parsed.Ok? then
      NOTHING.(class_ := CosmeticLine, hides := [Hide(parsed.value.yes, parsed.value.no, Canonical(selector))])
    else Rejected(BadSelectorOrScope)
  }

  // Network lines

  function AllOptions(raw: string): seq<string> { Split(OptionText(raw), ',') }

  function Without(options: seq<string>, dropped: seq<string>): (r: seq<string>)
    ensures forall o :: o in r <==> o in options && o !in dropped
  {
    if options == [] then []
    else if options[0] in dropped then Without(options[1..], dropped)
    else [options[0]] + Without(options[1..], dropped)
  }

  /** The filter a `badfilter` line names. */
  function BadfilterTarget(raw: string): string {
    TrimEndChar(raw[..IndexOf(raw, '$')] + "$" + Join(Without(AllOptions(raw), ["badfilter"]), ','), '$')
  }

  function Badfilter(raw: string): Effect {
    match Network(BadfilterTarget(raw))
    case Ok(rules) => NOTHING.(cancelled := RuleSet(rules))
    case Err(_) => Rejected(BadfilterTargetUnsupported)
  }

  function FirstDomainOption(options: seq<string>): Option<string> {
    if options == [] then None
    else if StartsWith(options[0], "domain=") then Some(options[0][7..])
    else FirstDomainOption(options[1..])
  }

  /** The pages a hiding exemption names, when they can be named. */
  function ExemptPages(raw: string): Option<set<string>> {
    match FirstDomainOption(AllOptions(raw))
    case Some(value) => PlainScope(ScopesOf(value, '|'))
    case None => match AnchoredHost(Pattern(raw)) case Some(host) => Some({host}) case None => None
  }

  predicate HidesGenerically(options: seq<string>) { "generichide" in options || "elemhide" in options }
  predicate ExemptsAll(options: seq<string>) { "elemhide" in options || "document" in options }

  /** The hiding side of an exception line. */
  function HidingExemption(raw: string): Effect {
    var options := AllOptions(raw);
    var pages := if HidesGenerically(options) || ExemptsAll(options) then ExemptPages(raw) else Some({});
    var base :=
      match (pages, ExemptsAll(options))
      case (Some(domains), true) => NOTHING.(allExcluded := domains)
      case (Some(domains), false) => NOTHING.(genericExcluded := domains)
      case (None, true) => NOTHING.(suppressCosmetic := true)
      case (None, false) => NOTHING.(suppressGeneric := true);
    if HidesGenerically(options) then
      base.(reasons := [ConservativeExemption])
    else base
  }

  const CONTEXT_OPTIONS: seq<string> := [
    "third-party", "~third-party", "first-party", "~first-party", "match-case", ""]

  predicate HasNetworkAction(options: seq<string>) {
    exists o | o in options :: !StartsWith(o, "domain=") && o !in CONTEXT_OPTIONS
  }

  /** The network filter an exception line still asks for, if any. */
  function Translated(raw: string): Option<string> {
    var options := AllOptions(raw);
    if IsException(raw) && HidesGenerically(options) then
      var remaining := Without(options, ["generichide", "elemhide"]);
      if HasNetworkAction(remaining) then Some("@@" + Pattern(raw) + "$" + Join(remaining, ',')) else None
    else Some(raw)
  }

  /** A document exemption also protects its target page. */
  function DocumentTarget(raw: string, effect: Effect): Effect {
    if IsException(raw) && "document" in AllOptions(raw) then Protecting(effect, AnchoredHost(Pattern(raw))) else effect
  }

  function Protecting(effect: Effect, page: Option<string>): Effect {
    match page
    case Some(host) => effect.(allExcluded := effect.allExcluded + {host})
    case None => effect.(suppressCosmetic := true)
  }

  function Guard(pattern: string): Rule {
    Rule(2, Allow, Condition(Some(pattern), {}, RESOURCE_TYPES, None, {}, {}, false))
  }

  function FrameGuard(pattern: string): Rule {
    Rule(2, AllowAllRequests, Condition(Some(pattern), {}, FRAME_TYPES, None, {}, {}, false))
  }

  /** What replaces an exception that cannot be translated. */
  function Guards(raw: string): set<Rule> {
    var options, pattern := AllOptions(raw), Pattern(raw);
    {Guard(pattern)} + if "document" in options || "genericblock" in options then {FrameGuard(pattern)} else {}
  }

  function NetworkEffect(raw: string, translated: string, effect: Effect): Effect {
    match Network(translated)
    case Ok(rules) => effect.(class_ := NetworkLine, rules := RuleSet(rules))
    case Err(reason) =>
      var failed := effect.(class_ := UnsupportedLine, reasons := effect.reasons + [reason]);
      if !IsException(raw) then failed
      else if PatternValid(Pattern(raw)) then
        failed.(rules := Guards(raw),
                reasons := failed.reasons + [BroaderGuard])
      else
        failed.(suppressBlocks := true,
                reasons := failed.reasons + [BlocksSuppressed])
  }

  function Filtered(raw: string, translated: Option<string>, hiding: Effect): Effect {
    match translated
    case None => hiding
    case Some(line) => NetworkEffect(raw, line, DocumentTarget(raw, hiding))
  }

  function FilterLine(raw: string): Effect {
    Filtered(raw, Translated(raw), if IsException(raw) then HidingExemption(raw) else NOTHING)
  }

  predicate Skipped(raw: string) {
    raw == "" || StartsWith(raw, "!") || StartsWith(raw, "[Adblock")
  }

  predicate TooLong(raw: string) {
    Utf8Len(raw) > MAX_LINE && !IsException(raw) && !Contains(raw, "#@#")
  }

  /** The branches of the loop body. */
  datatype Form =
    | SkippedForm
    | LongForm
    | ExceptionForm(scope: string, selector: string)
    | RuleForm(scope: string, selector: string)
    | ExtendedForm
    | BadfilterForm
    | FilterForm

  function FormOf(raw: string): Form {
    if Skipped(raw) then SkippedForm
    else if TooLong(raw) then LongForm
    else match SplitOnce(raw, "#@#")
    case Some(cut) => ExceptionForm(cut.0, cut.1)
    case None =>
      match SplitOnce(raw, "##")
      case Some(cut) => RuleForm(cut.0, cut.1)
      case None =>
        if '#' in raw then ExtendedForm
        else if "badfilter" in AllOptions(raw) then BadfilterForm
        else FilterForm
  }

  /** An exception without "#" is a filter or a badfilter. */
  lemma ExceptionForms(raw: string)
    requires IsException(raw) && '#' !in raw
    ensures FormOf(raw) == if "badfilter" in AllOptions(raw) then BadfilterForm else FilterForm
  {
    NotContained(raw, "#@#", '#');
    NotContained(raw, "##", '#');
    assert raw[0] == '@';
  }

  function EffectOf(raw: string, form: Form): Effect {
    match form
    case SkippedForm => NOTHING
    case LongForm => Rejected(RuleTooLong)
    case ExceptionForm(scope, selector) => CosmeticException(scope, selector)
    case RuleForm(scope, selector) => CosmeticRule(scope, selector)
    case ExtendedForm => Rejected(ExtendedSyntax)
    case BadfilterForm => Badfilter(raw)
    case FilterForm => FilterLine(raw)
  }

  /** What one turn of the compiler's loop over the lines contributes. */
  function LineEffect(raw: string): Effect { EffectOf(raw, FormOf(raw)) }

  lemma NoRulesElsewhere(raw: string, form: Form)
    requires form != FilterForm
    ensures EffectOf(raw, form).rules == {}
  {
    if form.ExceptionForm? {
      CosmeticsAddNoRules(form.scope, form.selector);
    } else if form.RuleForm? {
      CosmeticsAddNoRules(form.scope, form.selector);
    } else if form.BadfilterForm? {
      BadfilterAddsNoRules(raw);
    }
  }

  lemma CosmeticsAddNoRules(scope: string, selector: string)
    ensures CosmeticException(scope, selector).rules == {} && CosmeticRule(scope, selector).rules == {}
  {
  }

  lemma BadfilterAddsNoRules(raw: string)
    ensures Badfilter(raw).rules == {}
  {
  }

  lemma FilterArm(raw: string, form: Form)
    requires form == FilterForm
    ensures EffectOf(raw, form) == FilterLine(raw)
  {
  }

  lemma BadfilterArm(raw: string, form: Form)
    requires form == BadfilterForm
    ensures EffectOf(raw, form) == Badfilter(raw)
  {
  }

  lemma FilterException(raw: string, exception: bool, translated: Option<string>)
    requires exception == IsException(raw) && translated == Translated(raw) && exception
    ensures FilterLine(raw) == Filtered(raw, translated, HidingExemption(raw))
  {
  }

  lemma NetworkRules(raw: string, line: string, effect: Effect, rules: seq<Rule>)
    requires Network(line) == Ok(rules)
    ensures NetworkEffect(raw, line, effect).rules == RuleSet(rules)
  {
  }

  /** A line that reaches the network filters and compiles contributes the rules of its translation. */
  lemma FilterRules(raw: string, line: string, rules: seq<Rule>)
    requires Translated(raw) == Some(line) && Network(line) == Ok(rules)
    ensures FilterLine(raw).rules == RuleSet(rules)
  {
    NetworkRules(raw, line, DocumentTarget(raw, if IsException(raw) then HidingExemption(raw) else NOTHING), rules);
  }

  lemma TranslationNonempty(line: string, rules: seq<Rule>)
    requires Network(line) == Ok(rules)
    ensures RuleSet(rules) != {}
  {
    var st := Combine(LineModifiers(line)).value;
    RulesShape(Pattern(line), IsException(line), st, rules);
    assert rules[0] in RuleSet(rules);
  }

  // Shape of the contributed rules

  ghost predicate Shaped(r: Rule, exception: bool) {
    && r.condition.requestDomains == {} && r.condition.urlFilter.Some?
    && (r.action == Block <==> !exception)
    && r.priority == if exception then 2 else 1
  }

  lemma TranslatedShape(pattern: string, exception: bool, modifiers: seq<Modifier>, rules: seq<Rule>)
    requires Translate(pattern, exception, modifiers) == Ok(rules)
    requires !exception ==> forall m | m in modifiers :: m.meaning != Document
    ensures forall r | r in rules :: Shaped(r, exception) && r.condition.urlFilter == Some(pattern)
  {
    NoDocument(modifiers);
    var st := Combine(modifiers).value;
    RulesShape(pattern, exception, st, rules);
    forall r | r in rules ensures r == PlainRule(pattern, exception, st) || (st.document && r == FrameRule(pattern, st)) {}
  }

  lemma StepDocument(before: Filter, m: Modifier)
    requires Step(before, m).Ok?
    ensures Step(before, m).value.document <==> before.document || m.meaning == Document
  {
  }

  lemma {:induction false} NoDocument(modifiers: seq<Modifier>)
    requires Combine(modifiers).Ok?
    ensures Combine(modifiers).value.document <==> exists m :: m in modifiers && m.meaning == Document
    decreases |modifiers|
  {
    if modifiers != [] {
      var front, last := modifiers[..|modifiers| - 1], modifiers[|modifiers| - 1];
      assert modifiers == front + [last];
      NoDocument(front);
      StepDocument(Combine(front).value, last);
    }
  }

  lemma OnlyExceptionsAsk(exception: bool, option: string)
    ensures MeaningOf(exception, option) == Document ==> exception
  {
  }

  lemma PlainHasNoDocument(options: seq<string>)
    ensures forall m | m in ModifiersOf(false, options) :: m.meaning != Document
  {
    forall m | m in ModifiersOf(false, options) ensures m.meaning != Document {
      var i :| 0 <= i < |options| && ModifiersOf(false, options)[i] == m;
      OnlyExceptionsAsk(false, options[i]);
    }
  }

  lemma NetworkShape(raw: string, rules: seq<Rule>)
    requires Network(raw) == Ok(rules)
    ensures forall r | r in rules :: Shaped(r, IsException(raw)) && r.condition.urlFilter == Some(Pattern(raw))
  {
    if !IsException(raw) { PlainHasNoDocument(Options(raw)); }
    TranslatedShape(Pattern(raw), IsException(raw), LineModifiers(raw), rules);
  }

  ghost predicate ShapedEffect(e: Effect, exception: bool) {
    && (forall r | r in e.rules :: Shaped(r, exception))
    && |e.hides| == (if e.class_ == CosmeticLine then 1 else 0)
  }

  lemma TranslatedException(raw: string)
    requires Translated(raw).Some?
    ensures IsException(Translated(raw).value) <==> IsException(raw)
  {
    if IsException(raw) && HidesGenerically(AllOptions(raw)) {
      assert Translated(raw).value[..2] == "@@";
    }
  }

  lemma NetworkEffectShape(raw: string, line: string, effect: Effect)
    requires IsException(line) <==> IsException(raw)
    requires effect.rules == {} && effect.hides == [] && effect.class_ != CosmeticLine
    ensures ShapedEffect(NetworkEffect(raw, line, effect), IsException(raw))
  {
    match Network(line) {
      case Ok(rules) => NetworkShape(line, rules);
      case Err(_) => RefusedShape(raw, line, effect);
    }
  }

  lemma RefusedShape(raw: string, line: string, effect: Effect)
    requires Network(line).Err? && effect.rules == {} && effect.hides == []
    ensures ShapedEffect(NetworkEffect(raw, line, effect), IsException(raw))
  {
    GuardsShaped(raw);
    var e := NetworkEffect(raw, line, effect);
    assert e.rules == {} || (IsException(raw) && e.rules == Guards(raw));
  }

  lemma GuardsShaped(raw: string)
    ensures forall r | r in Guards(raw) :: Shaped(r, true)
  {
  }

  ghost predicate HidingOnly(e: Effect) {
    e.rules == {} && e.hides == [] && e.class_ == IgnoredLine && e.cancelled == {} && !e.suppressBlocks
  }

  lemma HidingExemptionShape(raw: string)
    ensures HidingOnly(HidingExemption(raw))
  {
  }

  lemma FilterShape(raw: string)
    ensures ShapedEffect(FilterLine(raw), IsException(raw))
  {
    HidingExemptionShape(raw);
    var hiding := if IsException(raw) then HidingExemption(raw) else NOTHING;
    match Translated(raw) {
      case None =>
      case Some(line) =>
        TranslatedException(raw);
        NetworkEffectShape(raw, line, DocumentTarget(raw, hiding));
    }
  }

  /** Every line contributes unpacked rules only: blocks from plain lines, allowing rules from
      exceptions. */
  lemma FormShape(raw: string, form: Form)
    ensures ShapedEffect(EffectOf(raw, form), IsException(raw))
  {
    if form == FilterForm {
      FilterArm(raw, form);
      FilterShape(raw);
    } else {
      NoRulesElsewhere(raw, form);
      HidesElsewhere(raw, form);
    }
  }

  predicate HidesByClass(e: Effect) { |e.hides| == if e.class_ == CosmeticLine then 1 else 0 }

  lemma CosmeticsHide(scope: string, selector: string)
    ensures HidesByClass(CosmeticException(scope, selector)) && HidesByClass(CosmeticRule(scope, selector))
  {
  }

  lemma BadfilterHides(raw: string)
    ensures HidesByClass(Badfilter(raw))
  {
  }

  lemma HidesElsewhere(raw: string, form: Form)
    requires form != FilterForm
    ensures HidesByClass(EffectOf(raw, form))
  {
    if form.ExceptionForm? {
      CosmeticsHide(form.scope, form.selector);
    } else if form.RuleForm? {
      CosmeticsHide(form.scope, form.selector);
    } else if form.BadfilterForm? {
      BadfilterHides(raw);
    }
  }
}
