/** The promises of the subscription compiler, read from the text of the lists. */
module SubscriptionPromises {
  import opened Text
  import opened Dnr
  import opened NetworkFilter
  import opened NetworkMeaning
  import opened NetworkText
  import opened SubscriptionLines
  import opened SubscriptionCompiler
  import opened SubscriptionSafety
  import UrlFilter

  // Blocking lines

  /** The line's text describes this request. */
  ghost predicate Describes(raw: string, hit: Hit) { Targets(raw, hit) && AllowsKind(raw, hit.kind) }

  /** A plain filter line the compiler supports. */
  ghost predicate BlockLine(raw: string) {
    FormOf(raw) == FilterForm && !IsException(raw) && Network(raw).Ok?
  }

  lemma PlainFilter(raw: string)
    requires !IsException(raw)
    ensures FilterLine(raw) == NetworkEffect(raw, raw, NOTHING)
  {
  }

  /** A block rule comes from a supported plain line that describes every request it applies to. */
  lemma BlockOrigin(raw: string, r: Rule, q: Request)
    requires r in LineEffect(raw).rules && r.action == Block && Applies(r, q)
    ensures BlockLine(raw) && r in RuleSet(Network(raw).value) && Describes(raw, q.hit)
  {
    FormShape(raw, FormOf(raw));
    if FormOf(raw) != FilterForm { NoRulesElsewhere(raw, FormOf(raw)); }
    PlainFilter(raw);
    var rules := Network(raw).value;
    assert AnyMeets(rules, false, q.hit);
    LineReads(raw, q.hit);
  }

  // Exception lines

  /** An exception line that reaches the network filters. */
  predicate ExceptionLine(raw: string) {
    FormOf(raw) == FilterForm && IsException(raw) && Translated(raw).Some?
  }

  /** Its translation, or a guard over its whole pattern, or nothing but suppression. */
  lemma ExceptionKept(raw: string)
    requires ExceptionLine(raw)
    ensures match Network(Translated(raw).value)
            case Ok(rules) => LineEffect(raw).rules == RuleSet(rules)
            case Err(_) => if PatternValid(Pattern(raw)) then LineEffect(raw).rules == Guards(raw)
                           else LineEffect(raw).suppressBlocks
  {
    var line, hiding := Translated(raw).value, HidingExemption(raw);
    FilteredBy(raw, line, hiding);
    NetworkKept(raw, line, DocumentTarget(raw, hiding));
  }

  lemma FilteredBy(raw: string, line: string, hiding: Effect)
    requires ExceptionLine(raw) && Translated(raw) == Some(line) && hiding == HidingExemption(raw)
    ensures LineEffect(raw) == NetworkEffect(raw, line, DocumentTarget(raw, hiding))
  {
    FilterArm(raw, FormOf(raw));
    FilterException(raw, true, Some(line));
    FilteredLine(raw, line, hiding);
  }

  lemma FilteredLine(raw: string, line: string, hiding: Effect)
    ensures Filtered(raw, Some(line), hiding) == NetworkEffect(raw, line, DocumentTarget(raw, hiding))
  {
  }

  lemma NetworkKept(raw: string, line: string, e: Effect)
    requires IsException(raw)
    ensures var effect := NetworkEffect(raw, line, e);
            match Network(line)
            case Ok(rules) => effect.rules == RuleSet(rules)
            case Err(_) => if PatternValid(Pattern(raw)) then effect.rules == Guards(raw) else effect.suppressBlocks
  {
  }

  /** A guard lets through every request whose URL the exception's pattern matches, with or without
      case, whatever the unsupported modifiers said; a page-wide one covers its frames as well. */
  lemma GuardCovers(pattern: string, caseSensitive: bool, q: Request)
    requires UrlFilter.Matches(pattern, caseSensitive, q.hit.url)
    ensures q.hit.kind != MainFrame ==> Applies(Guard(pattern), q)
    ensures q.hit.kind in FRAME_TYPES ==> Applies(FrameGuard(pattern), q)
  {
    AllKinds(q.hit.kind);
    if caseSensitive { UrlFilter.MatchesIgnoresCase(pattern, q.hit.url); }
  }

  /** And everything inside a frame that the pattern matches. */
  lemma FrameGuardCovers(pattern: string, caseSensitive: bool, q: Request, frame: Hit)
    requires frame in q.frames && frame.kind in FRAME_TYPES && UrlFilter.Matches(pattern, caseSensitive, frame.url)
    ensures Applies(FrameGuard(pattern), q)
  {
    if caseSensitive { UrlFilter.MatchesIgnoresCase(pattern, frame.url); }
    assert Meets(FrameGuard(pattern).condition, frame);
  }

  ghost predicate Spares(rules: set<Rule>, cancelled: set<Rule>, q: Request) {
    forall r | r in rules && r !in cancelled :: !Applies(r, q)
  }

  /** No surviving rule of this exception line applies to the request. */
  ghost predicate NotExempt(raw: string, cancelled: set<Rule>, q: Request)
    requires Translated(raw).Some?
  {
    match Network(Translated(raw).value)
    case Ok(rules) => Spares(RuleSet(rules), cancelled, q)
    case Err(_) => PatternValid(Pattern(raw)) && Spares(Guards(raw), cancelled, q)
  }

  lemma ExceptionSpares(raw: string, cancelled: set<Rule>, q: Request)
    requires ExceptionLine(raw) && !LineEffect(raw).suppressBlocks
    requires forall r | r in LineEffect(raw).rules && r !in cancelled && r.action != Block :: !Applies(r, q)
    ensures NotExempt(raw, cancelled, q)
  {
    ExceptionKept(raw);
    FormShape(raw, FormOf(raw));
  }

  /** The compiler never over-blocks: a request its output blocks is described by some supported
      plain line that was not cancelled, and no surviving rule or guard of any exception line in
      any list applies to it. */
  lemma NeverOverBlocks(sources: seq<Source>, budget: nat, out: Output, q: Request)
    requires Compiles(Effects(sources), budget, out) && WellFormed(q)
    requires Decide(AsSet(out.rules), q) == Blocked
    ensures exists raw :: raw in AllRaws(sources) && BlockLine(raw) && Describes(raw, q.hit)
                          && !(RuleSet(Network(raw).value) <= Collect(Effects(sources)).cancelled)
    ensures forall raw | raw in AllRaws(sources) && ExceptionLine(raw) ::
              NotExempt(raw, Collect(Effects(sources)).cancelled, q)
  {
    var raws, es := AllRaws(sources), Effects(sources);
    EffectsOfRaws(sources);
    LinesShaped(raws);
    OutputSound(es, budget, out, q);
    var cancelled := Collect(es).cancelled;
    var e, r :| e in es && r in e.rules && r !in cancelled && r.action == Block && Applies(r, q);
    EffectFrom(raws, e);
    var raw :| raw in raws && e == LineEffect(raw);
    BlockOrigin(raw, r, q);
    forall line | line in raws && ExceptionLine(line) ensures NotExempt(line, cancelled, q) {
      EffectOfLine(raws, line);
      ExceptionSpares(line, cancelled, q);
    }
  }

  ghost predicate DescribesPage(line: string, hit: Hit) {
    Targets(line, hit) && (hit.kind == MainFrame || hit.kind == SubFrame)
  }

  /** The exception's text exempts this request: it describes it, or it is page-wide and describes
      the request or a frame around it as a page. */
  ghost predicate Exempts(line: string, q: Request) {
    (Describes(line, q.hit) && (PageLine(line) ==> TypedLine(line)))
    || (PageLine(line) && (DescribesPage(line, q.hit) || exists f :: f in q.frames && DescribesPage(line, f)))
  }

  lemma ExemptsApplies(line: string, rules: seq<Rule>, q: Request) returns (r: Rule)
    requires Network(line) == Ok(rules) && Exempts(line, q)
    ensures r in rules && Applies(r, q)
  {
    LineReads(line, q.hit);
    if AnyMeets(rules, false, q.hit) {
      r :| r in rules && r.action != AllowAllRequests && Meets(r.condition, q.hit);
    } else if AnyMeets(rules, true, q.hit) {
      r :| r in rules && r.action == AllowAllRequests && Meets(r.condition, q.hit);
    } else {
      var f :| f in q.frames && DescribesPage(line, f);
      LineReads(line, f);
      r :| r in rules && r.action == AllowAllRequests && Meets(r.condition, f);
    }
  }

  ghost predicate MatchesEither(pattern: string, url: UrlFilter.Url) {
    UrlFilter.Matches(pattern, true, url) || UrlFilter.Matches(pattern, false, url)
  }

  predicate PageWide(raw: string) { "document" in AllOptions(raw) || "genericblock" in AllOptions(raw) }

  /** What the guards of an untranslatable line stand for: its URLs and, if it is page-wide, its pages
      with everything in them. */
  ghost predicate Guarded(raw: string, q: Request) {
    (q.hit.kind != MainFrame && MatchesEither(Pattern(raw), q.hit.url))
    || (PageWide(raw)
        && ((q.hit.kind in FRAME_TYPES && MatchesEither(Pattern(raw), q.hit.url))
            || exists f :: f in q.frames && f.kind in FRAME_TYPES && MatchesEither(Pattern(raw), f.url)))
  }

  /** What an exception line must let through: the requests its text exempts, or, when it cannot be
      translated, those its guards stand for; everything when even the pattern is unusable. */
  ghost predicate MustPass(raw: string, q: Request)
    requires ExceptionLine(raw)
  {
    match Network(Translated(raw).value)
    case Ok(_) => Exempts(Translated(raw).value, q)
    case Err(_) => PatternValid(Pattern(raw)) ==> Guarded(raw, q)
  }

  lemma GuardedApplies(raw: string, q: Request) returns (r: Rule)
    requires Guarded(raw, q)
    ensures r in Guards(raw) && Applies(r, q)
  {
    var pattern := Pattern(raw);
    if MatchesEither(pattern, q.hit.url) && (q.hit.kind != MainFrame || PageWide(raw)) {
      GuardCovers(pattern, UrlFilter.Matches(pattern, true, q.hit.url), q);
      r := if q.hit.kind != MainFrame then Guard(pattern) else FrameGuard(pattern);
    } else {
      var f :| f in q.frames && f.kind in FRAME_TYPES && MatchesEither(pattern, f.url);
      FrameGuardCovers(pattern, UrlFilter.Matches(pattern, true, f.url), q, f);
      r := FrameGuard(pattern);
    }
  }

  /** Exceptions are honoured in any list and any order: unless a badfilter cancelled a rule of the
      line, no request it must let through is blocked. */
  lemma ExceptionsHonoured(sources: seq<Source>, budget: nat, out: Output, q: Request, raw: string)
    requires Compiles(Effects(sources), budget, out) && WellFormed(q)
    requires raw in AllRaws(sources) && ExceptionLine(raw) && MustPass(raw, q)
    requires LineEffect(raw).rules !! Collect(Effects(sources)).cancelled
    ensures Decide(AsSet(out.rules), q) != Blocked
  {
    if Decide(AsSet(out.rules), q) == Blocked {
      var cancelled := Collect(Effects(sources)).cancelled;
      NeverOverBlocks(sources, budget, out, q);
      ExceptionKept(raw);
      PassedApplies(raw, cancelled, q);
    }
  }

  lemma PassedApplies(raw: string, cancelled: set<Rule>, q: Request)
    requires ExceptionLine(raw) && MustPass(raw, q) && LineEffect(raw).rules !! cancelled
    ensures !NotExempt(raw, cancelled, q)
  {
    ExceptionKept(raw);
    match Network(Translated(raw).value) {
      case Ok(rules) =>
        var r := ExemptsApplies(Translated(raw).value, rules, q);
        assert r in RuleSet(rules);
      case Err(_) =>
        if PatternValid(Pattern(raw)) { var r := GuardedApplies(raw, q); }
    }
  }

  // Exactly what is blocked

  lemma ExceptionRuleLine(raw: string, r: Rule)
    requires r in LineEffect(raw).rules && r.action != Block
    ensures ExceptionLine(raw)
  {
    FormShape(raw, FormOf(raw));
    if FormOf(raw) != FilterForm { NoRulesElsewhere(raw, FormOf(raw)); }
    if IsException(raw) && Translated(raw).None? { HidingOnly(raw); }
  }

  lemma HidingOnly(raw: string)
    requires FormOf(raw) == FilterForm && IsException(raw) && Translated(raw).None?
    ensures LineEffect(raw).rules == {}
  {
    FilterArm(raw, FormOf(raw));
    FilterException(raw, true, None);
  }

  lemma ExceptionRuleSpared(raw: string, cancelled: set<Rule>, q: Request, r: Rule)
    requires r in LineEffect(raw).rules && r.action != Block && r !in cancelled
    requires ExceptionLine(raw) && NotExempt(raw, cancelled, q)
    ensures !Applies(r, q)
  {
    ExceptionKept(raw);
  }

  lemma BlockLineRules(raw: string)
    requires BlockLine(raw)
    ensures LineEffect(raw).rules == RuleSet(Network(raw).value) && |Network(raw).value| == 1
    ensures Network(raw).value[0].action == Block
  {
    var rules := Network(raw).value;
    FilterArm(raw, FormOf(raw));
    PlainFilter(raw);
    NetworkRules(raw, raw, NOTHING, rules);
    OneBlockRule(raw, rules);
    NetworkShape(raw, rules);
    assert rules[0] in rules;
  }

  lemma BlockRuleApplies(raw: string, cancelled: set<Rule>, q: Request) returns (r: Rule)
    requires BlockLine(raw) && Describes(raw, q.hit) && !(RuleSet(Network(raw).value) <= cancelled)
    ensures r in LineEffect(raw).rules && r !in cancelled && r.action == Block && Applies(r, q)
  {
    var rules := Network(raw).value;
    BlockLineRules(raw);
    LineReads(raw, q.hit);
    r := rules[0];
    SingleRule(rules, r, cancelled, q);
  }

  lemma SingleRule(rules: seq<Rule>, r: Rule, cancelled: set<Rule>, q: Request)
    requires |rules| == 1 && r == rules[0] && !(RuleSet(rules) <= cancelled) && AnyMeets(rules, false, q.hit)
    ensures r in RuleSet(rules) && r !in cancelled && Applies(r, q)
  {
    assert rules == [r] && r in rules;
  }

  lemma OneBlockRule(raw: string, rules: seq<Rule>)
    requires Network(raw) == Ok(rules) && !IsException(raw)
    ensures |rules| == 1
  {
    PageReads(raw);
    LineSpelled(IsException(raw), Options(raw));
    CombineAsBag(LineModifiers(raw));
    RulesShape(Pattern(raw), IsException(raw), Combine(LineModifiers(raw)).value, rules);
  }

  /** Some supported plain line describes the request and was not cancelled. */
  ghost predicate BlockedByText(raws: seq<string>, cancelled: set<Rule>, q: Request) {
    exists raw :: raw in raws && BlockLine(raw) && Describes(raw, q.hit) && !(RuleSet(Network(raw).value) <= cancelled)
  }

  ghost predicate NoneExempts(raws: seq<string>, cancelled: set<Rule>, q: Request) {
    forall raw | raw in raws && ExceptionLine(raw) :: NotExempt(raw, cancelled, q)
  }

  lemma KeptBlocks(raws: seq<string>, es: seq<Effect>, q: Request)
    requires es == EffectsOf(raws)
    requires BlockedByText(raws, Collect(es).cancelled, q) && NoneExempts(raws, Collect(es).cancelled, q)
    ensures Decide(Kept(Collect(es)), q) == Blocked
  {
    var st := Collect(es);
    CollectGathers(es);
    LinesShaped(raws);
    KeptShapely(es);
    var raw :| raw in raws && BlockLine(raw) && Describes(raw, q.hit) && !(RuleSet(Network(raw).value) <= st.cancelled);
    EffectOfLine(raws, raw);
    var r := BlockRuleApplies(raw, st.cancelled, q);
    assert r in Kept(st);
    forall x | x in Kept(st) && x.action != Block ensures !Applies(x, q) {
      var e :| e in es && x in e.rules;
      EffectFrom(raws, e);
      var line :| line in raws && e == LineEffect(line);
      ExceptionRuleLine(line, x);
      ExceptionRuleSpared(line, st.cancelled, q, x);
    }
    BlockedMeans(Kept(st), q);
  }

  /** When no line suppresses blocks and none is dropped, exactly those requests are blocked that some
      uncancelled plain line describes and no uncancelled exception exempts. */
  lemma BlockedExactly(sources: seq<Source>, budget: nat, out: Output, q: Request)
    requires Compiles(Effects(sources), budget, out) && WellFormed(q)
    requires !Collect(Effects(sources)).suppressBlocks && out.networkDropped == 0
    ensures var cancelled := Collect(Effects(sources)).cancelled;
            Decide(AsSet(out.rules), q) == Blocked
            <==> BlockedByText(AllRaws(sources), cancelled, q) && NoneExempts(AllRaws(sources), cancelled, q)
  {
    var raws, es := AllRaws(sources), Effects(sources);
    EffectsOfRaws(sources);
    LinesShaped(raws);
    OutputExact(es, budget, out, q);
    if Decide(AsSet(out.rules), q) == Blocked { NeverOverBlocks(sources, budget, out, q); }
    if BlockedByText(raws, Collect(es).cancelled, q) && NoneExempts(raws, Collect(es).cancelled, q) {
      KeptBlocks(raws, es, q);
    }
  }

  lemma AppliesExempts(line: string, rules: seq<Rule>, q: Request, r: Rule)
    requires Network(line) == Ok(rules) && r in rules && Applies(r, q)
    ensures Exempts(line, q)
  {
    LineReads(line, q.hit);
    if Meets(r.condition, q.hit) {
      assert AnyMeets(rules, r.action == AllowAllRequests, q.hit);
    } else {
      var f :| f in q.frames && Meets(r.condition, f);
      assert AnyMeets(rules, true, f);
      LineReads(line, f);
    }
  }

  lemma AppliesGuarded(raw: string, q: Request, r: Rule)
    requires r in Guards(raw) && Applies(r, q)
    ensures Guarded(raw, q)
  {
    AllKinds(q.hit.kind);
    if !Meets(r.condition, q.hit) {
      var f :| f in q.frames && Meets(r.condition, f);
      assert f.kind in FRAME_TYPES;
    }
  }

  /** An exception of which nothing is cancelled exempts exactly the requests it must let through. */
  lemma ExemptExactly(raw: string, cancelled: set<Rule>, q: Request)
    requires ExceptionLine(raw) && LineEffect(raw).rules !! cancelled
    ensures NotExempt(raw, cancelled, q) <==> !MustPass(raw, q)
  {
    ExceptionKept(raw);
    if MustPass(raw, q) {
      PassedApplies(raw, cancelled, q);
    } else {
      match Network(Translated(raw).value) {
        case Ok(rules) =>
          forall r | r in RuleSet(rules) ensures !Applies(r, q) {
            if Applies(r, q) { AppliesExempts(Translated(raw).value, rules, q, r); }
          }
        case Err(_) =>
          forall r | r in Guards(raw) ensures !Applies(r, q) {
            if Applies(r, q) { AppliesGuarded(raw, q, r); }
          }
      }
    }
  }

  // Which exceptions act

  /** The line adds a rule, suppresses blocks or exempts pages from hiding. */
  predicate Acts(e: Effect) {
    e.rules != {} || e.suppressBlocks || e.allExcluded != {} || e.genericExcluded != {} || e.suppressGeneric
    || e.suppressCosmetic
  }

  lemma PagesNamed(raw: string)
    ensures ExemptPages(raw).Some? ==> ExemptPages(raw).value != {}
  {
  }

  lemma HidingActs(raw: string)
    requires Translated(raw).None?
    ensures Acts(HidingExemption(raw))
  {
    PagesNamed(raw);
  }

  lemma NetworkActs(raw: string, line: string, e: Effect)
    requires IsException(raw)
    ensures Acts(NetworkEffect(raw, line, e))
  {
    NetworkKept(raw, line, e);
    match Network(line) {
      case Ok(rules) => TranslationNonempty(line, rules);
      case Err(_) => assert Guard(Pattern(raw)) in Guards(raw);
    }
  }

  lemma FilterActs(raw: string)
    requires IsException(raw)
    ensures Acts(FilterLine(raw))
  {
    match Translated(raw) {
      case None => HidingActs(raw);
      case Some(line) => NetworkActs(raw, line, DocumentTarget(raw, HidingExemption(raw)));
    }
  }

  lemma CosmeticsDoNotAct(scope: string, selector: string)
    ensures !Acts(CosmeticException(scope, selector)) && !Acts(CosmeticRule(scope, selector))
  {
  }

  lemma HashForms(raw: string)
    requires IsException(raw) && '#' in raw
    ensures FormOf(raw).ExceptionForm? || FormOf(raw).RuleForm? || FormOf(raw).ExtendedForm?
  {
    assert raw[0] == '@';
  }

  lemma HashDoesNotAct(raw: string, form: Form)
    requires form.ExceptionForm? || form.RuleForm? || form.ExtendedForm?
    ensures !Acts(EffectOf(raw, form))
  {
    if form.ExceptionForm? {
      CosmeticsDoNotAct(form.scope, form.selector);
    } else if form.RuleForm? {
      CosmeticsDoNotAct(form.scope, form.selector);
    }
  }

  /** Of the exception lines that are no badfilters, exactly those without "#" act: the others are
      read as cosmetic or extended syntax and leave neither rule, guard nor suppression. */
  lemma ExceptionsAct(raw: string)
    requires IsException(raw) && FormOf(raw) != BadfilterForm
    ensures Acts(LineEffect(raw)) <==> '#' !in raw
  {
    if '#' in raw {
      HashForms(raw);
      HashDoesNotAct(raw, FormOf(raw));
    } else {
      ExceptionForms(raw);
      FilterActs(raw);
    }
  }

  lemma OneHash(a: string, b: string, sub: string)
    requires '#' !in a && '#' !in b && |sub| > 1 && sub[0] == '#' && sub[|sub| - 1] == '#'
    ensures !Contains(a + "#" + b, sub)
  {
    var s := a + "#" + b;
    FindLeast(s, sub);
    if Find(s, sub).Some? { NotTwice(a, b, sub, Find(s, sub).value); }
  }

  lemma NotTwice(a: string, b: string, sub: string, i: nat)
    requires '#' !in a && '#' !in b && |sub| > 1 && sub[0] == '#' && sub[|sub| - 1] == '#'
    ensures !OccursAt(a + "#" + b, sub, i)
  {
    var s := a + "#" + b;
    assert forall k | 0 <= k < |s| && k != |a| :: s[k] != '#';
    if OccursAt(s, sub, i) {
      OccursSlice(s, sub, i);
      HashPlaces(s, sub, i);
    }
  }

  lemma HashPlaces(s: string, sub: string, i: nat)
    requires |sub| > 1 && sub[0] == '#' && sub[|sub| - 1] == '#'
    requires i + |sub| <= |s| && s[i..i + |sub|] == sub
    ensures s[i] == '#' && s[i + |sub| - 1] == '#'
  {
    assert s[i..i + |sub|][0] == s[i] && s[i..i + |sub|][|sub| - 1] == s[i + |sub| - 1];
  }

  lemma HashForm(raw: string)
    requires IsException(raw) && '#' in raw && !Contains(raw, "#@#") && !Contains(raw, "##")
    ensures FormOf(raw) == ExtendedForm
  {
    assert raw[0] == '@';
  }

  /** So an exception whose URL has a fragment is dropped, as in `@@||ads.example/p#x$script`. */
  lemma FragmentExceptionDropped(a: string, b: string)
    requires '#' !in a && '#' !in b
    ensures var raw := "@@" + a + "#" + b; IsException(raw) && FormOf(raw) == ExtendedForm && !Acts(LineEffect(raw))
  {
    var raw, head := "@@" + a + "#" + b, "@@" + a;
    assert raw[..2] == "@@" && raw[|head|] == '#';
    OneHash(head, b, "#@#");
    OneHash(head, b, "##");
    HashForm(raw);
    HashDoesNotAct(raw, ExtendedForm);
  }
}
