/** Which selectors are hidden on which hosts, read from the text of the lines: hiding lines ask for it,
    exemptions of any list prevent it, whatever the order of the lines. */
module SubscriptionCosmetics {
  import opened Text
  import opened Hosts
  import opened Dnr
  import opened NetworkFilter
  import opened ScopeText
  import opened Selector
  import opened SubscriptionLines
  import opened SubscriptionCompiler

  /** The extension applies a rule to a host: some domain of its scope matches, or it has none, and
      no excluded domain matches. */
  ghost predicate Shows(c: Cosmetic, host: string) {
    (c.domains == {} || InAny(host, c.domains)) && !InAny(host, c.excluded)
  }

  /** This line lets the rule hide its selector on the host. */
  ghost predicate Permits(e: Effect, c: Cosmetic, host: string) {
    && (forall d :: (c.selector, d) in e.exempt ==> !MatchesDomain(host, d))
    && c.selector !in e.suppressed
    && !InAny(host, e.allExcluded)
    && !e.suppressCosmetic
    && (c.domains == {} ==> !InAny(host, e.genericExcluded) && !e.suppressGeneric)
  }

  lemma ScopedFrom(st: State, c: Cosmetic)
    requires c in Cosmetics(ScopeAll(st))
    ensures exists h :: h in st.hides && c == CosmeticOf(st, h) && !Omitted(st, h)
  {
    var s :| s in ScopeAll(st) && !s.omitted && s.cosmetic == c;
    var i :| 0 <= i < |st.hides| && ScopeAll(st)[i] == s;
    assert st.hides[i] in st.hides && s == ScopeOf(st, st.hides[i]);
  }

  lemma ExclusionsCover(st: State, h: Hide, host: string, domains: set<string>)
    requires !InAny(host, Exclusions(st, h)) && domains <= Exclusions(st, h)
    ensures !InAny(host, domains)
  {
  }

  /** A rule shown on a host is permitted there by the effect of every line of every list. */
  lemma EveryLinePermits(es: seq<Effect>, st: State, c: Cosmetic, host: string, e: Effect)
    requires Gathers(es, st) && c in Cosmetics(ScopeAll(st)) && Shows(c, host) && e in es
    ensures Permits(e, c, host)
  {
    ScopedFrom(st, c);
    var h :| h in st.hides && c == CosmeticOf(st, h) && !Omitted(st, h);
    assert e.allExcluded <= st.allExcluded && e.genericExcluded <= st.genericExcluded;
    ExclusionsCover(st, h, host, e.allExcluded);
    if h.domains == {} { ExclusionsCover(st, h, host, e.genericExcluded); }
    forall d | (c.selector, d) in e.exempt ensures !MatchesDomain(host, d) {
      assert (c.selector, d) in st.exempt;
      assert d in ExemptFor(st, h.selector);
    }
  }

  // Hiding lines

  /** No plain entry: the line is for all hosts but the negated ones. */
  predicate Generic(scope: string) { scope == "" || forall e | e in Split(scope, ',') :: Negates(e) }

  predicate HidingLine(raw: string, scope: string, selector: string) {
    FormOf(raw) == RuleForm(scope, selector) && ValidSelector(selector) && GoodScope(scope, ',')
  }

  lemma HideScope(scope: string, selector: string, host: string)
    requires ValidSelector(selector) && ScopesOf(scope, ',').Ok?
    ensures var r := ScopesOf(scope, ',').value;
            CosmeticRule(scope, selector).hides == [Hide(r.yes, r.no, Canonical(selector))]
  {
  }

  lemma RuleArm(raw: string, form: Form, scope: string, selector: string)
    requires form == RuleForm(scope, selector)
    ensures EffectOf(raw, form).hides == CosmeticRule(scope, selector).hides
  {
  }

  lemma NothingHidden(scope: string, selector: string)
    requires !ValidSelector(selector) || ScopesOf(scope, ',').Err?
    ensures CosmeticRule(scope, selector).hides == []
  {
  }

  lemma GenericScope(scope: string)
    requires ScopesOf(scope, ',').Ok?
    ensures ScopesOf(scope, ',').value.yes == {} <==> Generic(scope)
  {
    ScopeReads(scope, ',');
    if e :| e in Split(scope, ',') && !Negates(e) { NamesSome(Split(scope, ','), e); }
  }

  /** The hiding rule covers the host by its own scope. */
  ghost predicate CoversOwn(h: Hide, host: string) { Shows(Cosmetic(h.domains, h.excluded, h.selector), host) }

  /** A hiding line asks for exactly one rule, whose own scope covers exactly the hosts that the
      entries before its "##" admit; a refused one, and any other line, for none. */
  lemma HidingLineReads(raw: string, scope: string, selector: string, host: string)
    requires FormOf(raw) == RuleForm(scope, selector)
    ensures if HidingLine(raw, scope, selector) then
              exists h :: LineEffect(raw).hides == [h] && h.selector == Canonical(selector)
                          && (h.domains == {} <==> Generic(scope))
                          && (CoversOwn(h, host) <==> Admits(scope, ',', Some(host)))
            else LineEffect(raw).hides == []
  {
    RuleArm(raw, FormOf(raw), scope, selector);
    ScopeReads(scope, ',');
    if HidingLine(raw, scope, selector) {
      var r := ScopesOf(scope, ',').value;
      HideScope(scope, selector, host);
      GenericScope(scope);
      ScopeAdmits(scope, ',', r, Some(host));
      assert CoversOwn(Hide(r.yes, r.no, Canonical(selector)), host) <==> Admits(scope, ',', Some(host));
    } else {
      NothingHidden(scope, selector);
    }
  }

  lemma HidesOnlyByRules(raw: string)
    requires !FormOf(raw).RuleForm?
    ensures LineEffect(raw).hides == []
  {
    FormShape(raw, FormOf(raw));
    OtherClass(raw, FormOf(raw));
  }

  lemma OtherClass(raw: string, form: Form)
    requires !form.RuleForm?
    ensures EffectOf(raw, form).hides == []
  {
    if form.FilterForm? {
      FilterHidesNothing(raw);
    } else if form.ExceptionForm? {
      ExceptionHidesNothing(form.scope, form.selector);
    }
  }

  lemma ExceptionHidesNothing(scope: string, selector: string)
    ensures CosmeticException(scope, selector).hides == []
  {
  }

  lemma FilterHidesNothing(raw: string)
    ensures FilterLine(raw).hides == []
  {
    FilterShape(raw);
  }

  /** The text of a line asks to hide this selector on this host. */
  ghost predicate AsksToHide(raw: string, selector: string, generic: bool, host: string) {
    exists scope, own :: HidingLine(raw, scope, own) && Canonical(own) == selector && Generic(scope) == generic
                         && Admits(scope, ',', Some(host))
  }

  lemma AsksReads(raw: string, h: Hide, host: string)
    requires h in LineEffect(raw).hides && CoversOwn(h, host)
    ensures AsksToHide(raw, h.selector, h.domains == {}, host)
  {
    if !FormOf(raw).RuleForm? { HidesOnlyByRules(raw); }
    HidingLineReads(raw, FormOf(raw).scope, FormOf(raw).selector, host);
  }

  lemma AskedHide(raw: string, selector: string, generic: bool, host: string) returns (h: Hide)
    requires AsksToHide(raw, selector, generic, host)
    ensures LineEffect(raw).hides == [h] && h.selector == selector && (h.domains == {}) == generic && CoversOwn(h, host)
  {
    var scope, own :| HidingLine(raw, scope, own) && Canonical(own) == selector && Generic(scope) == generic
                      && Admits(scope, ',', Some(host));
    HidingLineReads(raw, scope, own, host);
    h := LineEffect(raw).hides[0];
  }

  // Exemptions

  /** A scope of plain entries only. */
  predicate PlainList(value: string, delimiter: char) {
    value != "" && GoodScope(value, delimiter) && forall e | e in Split(value, delimiter) :: !Negates(e)
  }

  /** The scope can be honoured as it stands, and does not name the host. */
  ghost predicate ListSpares(value: string, delimiter: char, host: string) {
    PlainList(value, delimiter) && !Names(Split(value, delimiter), false, Some(host))
  }

  ghost predicate PagesSpared(pages: Option<set<string>>, host: string) {
    pages.Some? && !InAny(host, pages.value)
  }

  lemma NamesNone(entries: seq<string>)
    ensures NamesIn(entries, true) == {} <==> forall e | e in entries :: !Negates(e)
  {
    if e :| e in entries && Negates(e) { NamesSome(entries, e); }
  }

  lemma ListReads(value: string, delimiter: char, host: string)
    ensures PlainScope(ScopesOf(value, delimiter)).Some? <==> PlainList(value, delimiter)
    ensures PagesSpared(PlainScope(ScopesOf(value, delimiter)), host) <==> ListSpares(value, delimiter, host)
  {
    var entries := Split(value, delimiter);
    ScopeReads(value, delimiter);
    NamesNone(entries);
    NamesAny(entries, false, Some(host));
    if forall e | e in entries :: !Negates(e) {
      assert entries[0] in entries;
      NamesSome(entries, entries[0]);
    }
  }

  ghost predicate HostSpares(page: Option<string>, host: string) { page.Some? && !MatchesDomain(host, page.value) }

  /** The pages an exemption names, by its first `domain=` or else by its pattern, can be told and do
      not include the host. */
  ghost predicate PagesPermit(raw: string, host: string) {
    match FirstDomainOption(AllOptions(raw))
    case Some(value) => ListSpares(value, '|', host)
    case None => HostSpares(AnchoredHost(Pattern(raw)), host)
  }

  lemma PagesRead(raw: string, host: string)
    ensures PagesSpared(ExemptPages(raw), host) <==> PagesPermit(raw, host)
  {
    match FirstDomainOption(AllOptions(raw)) {
      case Some(value) => ListReads(value, '|', host);
      case None =>
        var page := AnchoredHost(Pattern(raw));
        if page.Some? { assert page.value in {page.value}; }
    }
  }

  /** What an exception with hiding modifiers leaves to be hidden on a host. */
  ghost predicate ExemptionPermits(raw: string, generic: bool, host: string) {
    var options := AllOptions(raw);
    && ("document" in options ==> HostSpares(AnchoredHost(Pattern(raw)), host))
    && ("document" in options || "elemhide" in options || ("generichide" in options && generic) ==> PagesPermit(raw, host))
  }

  /** The text of a line lets this selector be hidden on this host. */
  ghost predicate LinePermits(raw: string, selector: string, generic: bool, host: string) {
    match FormOf(raw)
    case ExceptionForm(scope, own) => ValidSelector(own) && Canonical(own) == selector ==> ListSpares(scope, ',', host)
    case FilterForm => IsException(raw) ==> ExemptionPermits(raw, generic, host)
    case _ => true
  }

  /** Only the hiding side of an effect matters. */
  predicate KeepsHiding(a: Effect, b: Effect) {
    b.allExcluded == a.allExcluded && b.genericExcluded == a.genericExcluded && b.suppressGeneric == a.suppressGeneric
    && b.suppressCosmetic == a.suppressCosmetic && b.exempt == a.exempt && b.suppressed == a.suppressed
  }

  lemma KeptPermits(a: Effect, b: Effect, c: Cosmetic, host: string)
    requires KeepsHiding(a, b)
    ensures Permits(a, c, host) <==> Permits(b, c, host)
  {
  }

  lemma NothingForbids(e: Effect, c: Cosmetic, host: string)
    requires KeepsHiding(NOTHING, e)
    ensures Permits(e, c, host)
  {
  }

  lemma NetworkKeepsHiding(raw: string, line: string, e: Effect)
    ensures KeepsHiding(e, NetworkEffect(raw, line, e))
  {
  }

  lemma FilteredKeepsHiding(raw: string, translated: Option<string>, hiding: Effect)
    ensures KeepsHiding(if translated.None? then hiding else DocumentTarget(raw, hiding), Filtered(raw, translated, hiding))
  {
    if translated.Some? { NetworkKeepsHiding(raw, translated.value, DocumentTarget(raw, hiding)); }
  }

  lemma DocumentIsAction()
    ensures "document" !in CONTEXT_OPTIONS && !StartsWith("document", "domain=")
    ensures "document" !in ["generichide", "elemhide"]
  {
    var options := CONTEXT_OPTIONS;
    assert |options[0]| == 11 && |options[1]| == 12 && |options[2]| == 11 && |options[3]| == 12 && |options[4]| == 10
           && |options[5]| == 0;
    assert forall o | o in options :: |o| != 8;
    assert "document"[..7][1] == 'o' && "document"[..7][2] == 'c' && "domain="[2] == 'm';
    assert "elemhide"[0] == 'e';
  }

  /** A `$document` line reaches the network filters, so its target page is always protected. */
  lemma DocumentReaches(raw: string)
    requires IsException(raw) && "document" in AllOptions(raw)
    ensures Translated(raw).Some?
  {
    DocumentIsAction();
    ActionReaches(raw, "document");
  }

  lemma ActionReaches(raw: string, o: string)
    requires o in AllOptions(raw) && o !in ["generichide", "elemhide"]
    requires !StartsWith(o, "domain=") && o !in CONTEXT_OPTIONS
    ensures Translated(raw).Some?
  {
    var rest := Without(AllOptions(raw), ["generichide", "elemhide"]);
    assert o in rest;
    assert HasNetworkAction(rest);
  }

  lemma ProtectingPermits(e: Effect, page: Option<string>, c: Cosmetic, host: string)
    ensures Permits(Protecting(e, page), c, host) <==> Permits(e, c, host) && HostSpares(page, host)
  {
    if page.Some? {
      assert InAny(host, e.allExcluded + {page.value}) <==> InAny(host, e.allExcluded) || MatchesDomain(host, page.value) by {
        assert page.value in e.allExcluded + {page.value};
        assert e.allExcluded <= e.allExcluded + {page.value};
      }
    }
  }

  lemma HidingPermits(raw: string, c: Cosmetic, host: string)
    ensures var options := AllOptions(raw);
            Permits(HidingExemption(raw), c, host)
            <==> (ExemptsAll(options) || (HidesGenerically(options) && c.domains == {}) ==> PagesSpared(ExemptPages(raw), host))
  {
  }

  lemma FilterPermits(raw: string, c: Cosmetic, host: string)
    requires IsException(raw)
    ensures Permits(FilterLine(raw), c, host) <==> ExemptionPermits(raw, c.domains == {}, host)
  {
    var hiding := HidingExemption(raw);
    FilterException(raw, true, Translated(raw));
    FilteredKeepsHiding(raw, Translated(raw), hiding);
    if "document" in AllOptions(raw) { DocumentReaches(raw); }
    KeptPermits(if Translated(raw).None? then hiding else DocumentTarget(raw, hiding), FilterLine(raw), c, host);
    HidingPermits(raw, c, host);
    PagesRead(raw, host);
    ProtectingPermits(hiding, AnchoredHost(Pattern(raw)), c, host);
  }

  lemma ScopedExempt(canonical: string, pages: set<string>, c: Cosmetic, host: string)
    ensures Permits(NOTHING.(exempt := set d | d in pages :: (canonical, d)), c, host)
            <==> (c.selector == canonical ==> !InAny(host, pages))
  {
    var e := NOTHING.(exempt := set d | d in pages :: (canonical, d));
    assert forall d :: (canonical, d) in e.exempt <==> d in pages;
  }

  lemma ExceptionPermits(scope: string, selector: string, c: Cosmetic, host: string)
    ensures Permits(CosmeticException(scope, selector), c, host)
            <==> (ValidSelector(selector) && Canonical(selector) == c.selector ==> ListSpares(scope, ',', host))
  {
    if ValidSelector(selector) {
      ListReads(scope, ',', host);
      match PlainScope(ScopesOf(scope, ',')) {
        case Some(pages) => ScopedExempt(Canonical(selector), pages, c, host);
        case None =>
      }
    } else {
      NothingForbids(CosmeticException(scope, selector), c, host);
    }
  }

  lemma RulePermits(scope: string, selector: string, c: Cosmetic, host: string)
    ensures Permits(CosmeticRule(scope, selector), c, host)
  {
    NothingForbids(CosmeticRule(scope, selector), c, host);
  }

  lemma BadfilterPermits(raw: string, c: Cosmetic, host: string)
    ensures Permits(Badfilter(raw), c, host)
  {
    NothingForbids(Badfilter(raw), c, host);
  }

  lemma PlainPermits(raw: string, c: Cosmetic, host: string)
    requires !IsException(raw)
    ensures Permits(FilterLine(raw), c, host)
  {
    FilteredKeepsHiding(raw, Translated(raw), NOTHING);
    NothingForbids(FilterLine(raw), c, host);
  }

  lemma FormPermits(raw: string, form: Form, c: Cosmetic, host: string)
    ensures Permits(EffectOf(raw, form), c, host)
            <==> match form
                 case ExceptionForm(scope, own) =>
                   (ValidSelector(own) && Canonical(own) == c.selector ==> ListSpares(scope, ',', host))
                 case FilterForm => (IsException(raw) ==> ExemptionPermits(raw, c.domains == {}, host))
                 case _ => true
  {
    if form.ExceptionForm? {
      ExceptionPermits(form.scope, form.selector, c, host);
    } else if form.RuleForm? {
      RulePermits(form.scope, form.selector, c, host);
    } else if form.BadfilterForm? {
      BadfilterPermits(raw, c, host);
    } else if form.FilterForm? {
      if IsException(raw) { FilterPermits(raw, c, host); } else { PlainPermits(raw, c, host); }
    } else {
      NothingForbids(EffectOf(raw, form), c, host);
    }
  }

  /** What the effect of a line permits is what its text permits. */
  lemma PermitsReads(raw: string, c: Cosmetic, host: string)
    ensures Permits(LineEffect(raw), c, host) <==> LinePermits(raw, c.selector, c.domains == {}, host)
  {
    FormPermits(raw, FormOf(raw), c, host);
  }

  // Whole compilations

  /** Some emitted rule hides the selector on the host. */
  ghost predicate Hidden(cosmetics: set<Cosmetic>, selector: string, generic: bool, host: string) {
    exists c :: c in cosmetics && c.selector == selector && (c.domains == {}) == generic && Shows(c, host)
  }

  ghost predicate AllPermit(raws: seq<string>, selector: string, generic: bool, host: string) {
    forall raw | raw in raws :: LinePermits(raw, selector, generic, host)
  }

  /** The rules of the line have no more exclusions, with those of all lists, than a rule may list. */
  ghost predicate FewExclusions(st: State, raw: string) {
    forall h | h in LineEffect(raw).hides :: |Exclusions(st, h)| <= MAX_DOMAINS
  }

  /** A hiding line of some list asks for it, and every line of every list permits it. */
  ghost predicate HiddenByText(raws: seq<string>, st: State, selector: string, generic: bool, host: string) {
    (exists raw :: raw in raws && AsksToHide(raw, selector, generic, host) && FewExclusions(st, raw))
    && AllPermit(raws, selector, generic, host)
  }

  lemma PermittedByAll(raws: seq<string>, es: seq<Effect>, c: Cosmetic, host: string)
    requires es == EffectsOf(raws)
    ensures (forall e | e in es :: Permits(e, c, host)) <==> AllPermit(raws, c.selector, c.domains == {}, host)
  {
    forall raw | raw in raws
      ensures LineEffect(raw) in es && (Permits(LineEffect(raw), c, host) <==> LinePermits(raw, c.selector, c.domains == {}, host))
    {
      EffectOfLine(raws, raw);
      PermitsReads(raw, c, host);
    }
    forall e | e in es ensures exists raw :: raw in raws && e == LineEffect(raw) { EffectFrom(raws, e); }
  }

  lemma AskedBy(raws: seq<string>, es: seq<Effect>, st: State, h: Hide, host: string)
    requires es == EffectsOf(raws) && (exists e :: e in es && h in e.hides) && CoversOwn(h, host)
    requires |Exclusions(st, h)| <= MAX_DOMAINS
    ensures exists raw :: raw in raws && AsksToHide(raw, h.selector, h.domains == {}, host) && FewExclusions(st, raw)
  {
    var e :| e in es && h in e.hides;
    EffectFrom(raws, e);
    var raw :| raw in raws && e == LineEffect(raw);
    AsksReads(raw, h, host);
    OneHide(raw, h);
  }

  lemma ShownAsked(raws: seq<string>, es: seq<Effect>, st: State, c: Cosmetic, host: string)
    requires es == EffectsOf(raws) && Gathers(es, st) && c in Cosmetics(ScopeAll(st)) && Shows(c, host)
    ensures HiddenByText(raws, st, c.selector, c.domains == {}, host)
  {
    ScopedFrom(st, c);
    var h :| h in st.hides && c == CosmeticOf(st, h) && !Omitted(st, h);
    ExclusionsCover(st, h, host, h.excluded);
    AskedBy(raws, es, st, h, host);
    forall e | e in es ensures Permits(e, c, host) { EveryLinePermits(es, st, c, host, e); }
    PermittedByAll(raws, es, c, host);
  }

  lemma OneHide(raw: string, h: Hide)
    requires h in LineEffect(raw).hides
    ensures LineEffect(raw).hides == [h]
  {
    FormShape(raw, FormOf(raw));
    OneOf(LineEffect(raw).hides, h);
  }

  lemma OneOf(hides: seq<Hide>, h: Hide)
    requires |hides| <= 1 && h in hides
    ensures hides == [h]
  {
  }

  lemma NotExcluded(es: seq<Effect>, st: State, h: Hide, c: Cosmetic, host: string)
    requires Gathers(es, st) && c == CosmeticOf(st, h) && !InAny(host, h.excluded)
    requires forall e | e in es :: Permits(e, c, host)
    ensures !InAny(host, c.excluded)
  {
    forall d | d in c.excluded ensures !MatchesDomain(host, d) {
      if d in st.allExcluded {
        var e :| e in es && d in e.allExcluded;
        assert Permits(e, c, host);
      } else if d !in h.excluded && h.domains == {} && d in st.genericExcluded {
        var e :| e in es && d in e.genericExcluded;
        assert Permits(e, c, host);
      } else if d !in h.excluded {
        assert (h.selector, d) in st.exempt;
      }
    }
  }

  lemma NotOmitted(es: seq<Effect>, st: State, h: Hide, c: Cosmetic, host: string)
    requires Gathers(es, st) && c == CosmeticOf(st, h) && |Exclusions(st, h)| <= MAX_DOMAINS
    requires forall e | e in es :: Permits(e, c, host)
    ensures !Omitted(st, h)
  {
  }

  lemma ShownOf(es: seq<Effect>, st: State, h: Hide, c: Cosmetic, host: string)
    requires Gathers(es, st) && h in st.hides && c == CosmeticOf(st, h) && CoversOwn(h, host)
    requires |Exclusions(st, h)| <= MAX_DOMAINS && forall e | e in es :: Permits(e, c, host)
    ensures c in Cosmetics(ScopeAll(st)) && Shows(c, host)
  {
    NotExcluded(es, st, h, c, host);
    NotOmitted(es, st, h, c, host);
    var i :| 0 <= i < |st.hides| && st.hides[i] == h;
    assert ScopeAll(st)[i] == Scoped(c, false);
  }

  lemma AskedShown(raws: seq<string>, es: seq<Effect>, st: State, selector: string, generic: bool, host: string)
    requires es == EffectsOf(raws) && Gathers(es, st) && HiddenByText(raws, st, selector, generic, host)
    ensures Hidden(Cosmetics(ScopeAll(st)), selector, generic, host)
  {
    var raw :| raw in raws && AsksToHide(raw, selector, generic, host) && FewExclusions(st, raw);
    var h := AskedHide(raw, selector, generic, host);
    var c := CosmeticOf(st, h);
    HideGathered(raws, es, st, raw, h);
    PermittedByAll(raws, es, c, host);
    ShownOf(es, st, h, c, host);
  }

  lemma HideGathered(raws: seq<string>, es: seq<Effect>, st: State, raw: string, h: Hide)
    requires es == EffectsOf(raws) && Gathers(es, st) && raw in raws && LineEffect(raw).hides == [h]
    ensures h in st.hides
  {
    EffectOfLine(raws, raw);
    assert h in LineEffect(raw).hides;
  }

  /** Whatever is hidden on a host is asked for by a hiding line of some list whose entries admit the
      host, and every line of every list permits it: no `#@#`, `document`, `elemhide` or `generichide`
      line that covers the host or cannot be told to spare it. */
  lemma HiddenIsAsked(sources: seq<Source>, budget: nat, out: Output, selector: string, generic: bool, host: string)
    requires Compiles(Effects(sources), budget, out) && Hidden(out.cosmetics, selector, generic, host)
    ensures HiddenByText(AllRaws(sources), Collect(Effects(sources)), selector, generic, host)
  {
    EffectsOfRaws(sources);
    CollectGathers(Effects(sources));
    var c :| c in out.cosmetics && c.selector == selector && (c.domains == {}) == generic && Shows(c, host);
    ShownAsked(AllRaws(sources), Effects(sources), Collect(Effects(sources)), c, host);
  }

  /** A shown rule comes from a hiding line with the same selector whose entries admit the host. */
  lemma ShownByLine(sources: seq<Source>, budget: nat, out: Output, c: Cosmetic, host: string)
    requires Compiles(Effects(sources), budget, out) && c in out.cosmetics && Shows(c, host)
    ensures exists raw, scope, own ::
              && raw in AllRaws(sources) && FormOf(raw) == RuleForm(scope, own) && ValidSelector(own)
              && Canonical(own) == c.selector && Admits(scope, ',', Some(host))
  {
    HiddenIsAsked(sources, budget, out, c.selector, c.domains == {}, host);
    var raw :| raw in AllRaws(sources) && AsksToHide(raw, c.selector, c.domains == {}, host);
    var scope, own :| HidingLine(raw, scope, own) && Canonical(own) == c.selector && Admits(scope, ',', Some(host));
  }

  /** No emitted rule, as the extension applies it, hides its selector on a host that a scoped exception
      for the selector names, nor anything on an exempted page, nor a generic rule on a page without
      generic hiding; exemptions that name no page leave no such rule at all. */
  lemma ExemptionsHold(sources: seq<Source>, budget: nat, out: Output, c: Cosmetic, host: string, raw: string)
    requires Compiles(Effects(sources), budget, out) && c in out.cosmetics && Shows(c, host) && raw in AllRaws(sources)
    ensures FormOf(raw) == FilterForm && IsException(raw) ==> ExemptionPermits(raw, c.domains == {}, host)
    ensures ScopedSpares(FormOf(raw), c.selector, host)
  {
    HiddenIsAsked(sources, budget, out, c.selector, c.domains == {}, host);
    assert AllPermit(AllRaws(sources), c.selector, c.domains == {}, host);
    PermitsParts(raw, c.selector, c.domains == {}, host);
  }

  /** A `#@#` line for the selector names only hosts that it can spare, and not this one. */
  ghost predicate ScopedSpares(form: Form, selector: string, host: string) {
    form.ExceptionForm? && ValidSelector(form.selector) && Canonical(form.selector) == selector ==>
      ListSpares(form.scope, ',', host)
  }

  lemma PermitsParts(raw: string, selector: string, generic: bool, host: string)
    requires LinePermits(raw, selector, generic, host)
    ensures FormOf(raw) == FilterForm && IsException(raw) ==> ExemptionPermits(raw, generic, host)
    ensures ScopedSpares(FormOf(raw), selector, host)
  {
  }

  lemma NoneDropped(scoped: seq<Scoped>, reasons: nat, out: Output)
    requires CosmeticSide(scoped, reasons, out) && out.cosmeticDropped == 0
    ensures out.cosmetics == Cosmetics(scoped)
  {
    var all := Cosmetics(scoped);
    assert all == out.cosmetics + (all - out.cosmetics);
  }

  /** When no hiding rule is dropped over the limit, exactly what the lines ask for and all lines permit
      is hidden. */
  lemma HiddenExactly(sources: seq<Source>, budget: nat, out: Output, selector: string, generic: bool, host: string)
    requires Compiles(Effects(sources), budget, out) && out.cosmeticDropped == 0
    ensures Hidden(out.cosmetics, selector, generic, host)
            <==> HiddenByText(AllRaws(sources), Collect(Effects(sources)), selector, generic, host)
  {
    var es := Effects(sources);
    if Hidden(out.cosmetics, selector, generic, host) { HiddenIsAsked(sources, budget, out, selector, generic, host); }
    if HiddenByText(AllRaws(sources), Collect(es), selector, generic, host) {
      EffectsOfRaws(sources);
      CollectGathers(es);
      NoneDropped(ScopeAll(Collect(es)), ReasonCount(es), out);
      AskedShown(AllRaws(sources), es, Collect(es), selector, generic, host);
    }
  }

  // The text of single lines

  /** A line cut at its first "##" into a scope and a selector. */
  lemma RuleText(scope: string, selector: string)
    requires '#' !in scope && '@' !in scope && '@' !in selector && !Skipped(scope + "##" + selector)
    requires Utf8Len(scope + "##" + selector) <= MAX_LINE
    ensures FormOf(scope + "##" + selector) == RuleForm(scope, selector)
  {
    var raw := scope + "##" + selector;
    SplitOnceAt(scope, "##", selector);
    NotContained(raw, "#@#", '@');
  }

  /** The text of the line asks to hide the selector on the host. */
  ghost predicate Asks(raw: string, selector: string, host: string) {
    exists generic :: AsksToHide(raw, selector, generic, host)
  }

  lemma AsksByScope(raw: string, scope: string, selector: string, host: string)
    requires FormOf(raw) == RuleForm(scope, selector) && ValidSelector(selector) && GoodScope(scope, ',')
    ensures Asks(raw, Canonical(selector), host) <==> Admits(scope, ',', Some(host))
  {
    if Admits(scope, ',', Some(host)) {
      assert HidingLine(raw, scope, selector);
      assert AsksToHide(raw, Canonical(selector), Generic(scope), host);
    }
    if Asks(raw, Canonical(selector), host) {
      var generic :| AsksToHide(raw, Canonical(selector), generic, host);
      var own_scope, own :| HidingLine(raw, own_scope, own) && Admits(own_scope, ',', Some(host));
    }
  }

  /** What may stand before "##" in the examples below. */
  predicate Short(scope: string, selector: string) {
    '@' !in selector && Utf8Len(scope + "##" + selector) <= MAX_LINE
  }

  lemma ScopeChars(scope: string)
    requires forall c | c in scope :: IsHostChar(c) || c == '~' || c == ','
    ensures '#' !in scope && '@' !in scope && '!' !in scope && '[' !in scope
  {
  }

  lemma ScopeLine(scope: string, selector: string)
    requires (forall c | c in scope :: IsHostChar(c) || c == '~' || c == ',') && Short(scope, selector)
    ensures FormOf(scope + "##" + selector) == RuleForm(scope, selector)
  {
    ScopeChars(scope);
    var raw := scope + "##" + selector;
    assert raw[0] == if scope == "" then '#' else scope[0];
    assert scope != "" ==> scope[0] in scope;
    RuleText(scope, selector);
  }

  lemma OneEntry(d: string, negated: bool)
    requires HostValid(d)
    ensures var e := (if negated then "~" else "") + d;
            Split(e, ',') == [e] && Negates(e) == negated && DomainOf(e) == d && e != ""
            && forall c | c in e :: IsHostChar(c) || c == '~' || c == ','
  {
    var e := (if negated then "~" else "") + d;
    HostChars(d);
    assert d[0] in d && ',' !in d && ',' !in e;
    SplitWhole(e, ',');
    if negated { assert e[1..] == d; } else { assert e == d; }
  }

  lemma TwoEntries(d: string, x: string)
    requires HostValid(d) && HostValid(x)
    ensures var s := d + "," + ("~" + x);
            Split(s, ',') == [d, "~" + x] && s != "" && forall c | c in s :: IsHostChar(c) || c == '~' || c == ','
    ensures !Negates(d) && Negates("~" + x) && DomainOf(d) == d && DomainOf("~" + x) == x
  {
    OneEntry(d, false);
    OneEntry(x, true);
    assert "" + d == d;
    HostChars(d);
    HostChars(x);
    assert Join([d, "~" + x], ',') == d + [','] + ("~" + x);
    SplitJoin([d, "~" + x], ',');
  }

  lemma EntriesFew(a: string, b: string)
    ensures |NamesIn([a, b], false)| <= 200 && |NamesIn([a, b], true)| <= 200
  {
    SubsetSize(NamesIn([a, b], false), {Lower(DomainOf(a)), Lower(DomainOf(b))});
    SubsetSize(NamesIn([a, b], true), {Lower(DomainOf(a)), Lower(DomainOf(b))});
  }

  lemma OneEntryAdmits(scope: string, e: string, host: string)
    requires scope != "" && Split(scope, ',') == [e] && HostValid(DomainOf(e))
    ensures GoodScope(scope, ',')
    ensures Admits(scope, ',', Some(host)) <==> MatchesDomain(host, Lower(DomainOf(e))) != Negates(e)
  {
    assert e in [e] && NamesIn([e], false) == NamesIn([e, e], false) && NamesIn([e], true) == NamesIn([e, e], true);
    EntriesFew(e, e);
  }

  lemma TwoEntriesAdmit(scope: string, d: string, x: string, host: string)
    requires scope != "" && Split(scope, ',') == [d, x] && HostValid(DomainOf(d)) && HostValid(DomainOf(x))
    requires !Negates(d) && Negates(x)
    ensures GoodScope(scope, ',')
    ensures Admits(scope, ',', Some(host))
            <==> MatchesDomain(host, Lower(DomainOf(d))) && !MatchesDomain(host, Lower(DomainOf(x)))
  {
    assert d in [d, x] && x in [d, x];
    EntriesFew(d, x);
  }

  /** `##selector` asks to hide everywhere. */
  lemma GenericLine(selector: string, host: string)
    requires ValidSelector(selector) && Short("", selector)
    ensures Asks("" + "##" + selector, Canonical(selector), host)
  {
    ScopeLine("", selector);
    AsksByScope("" + "##" + selector, "", selector, host);
  }

  /** `d##selector` asks for d and its subdomains only, and `~d##selector` for all other hosts. */
  lemma ScopedLine(d: string, negated: bool, selector: string, host: string)
    requires HostValid(d) && ValidSelector(selector) && Short((if negated then "~" else "") + d, selector)
    ensures var scope := (if negated then "~" else "") + d;
            Asks(scope + "##" + selector, Canonical(selector), host) <==> MatchesDomain(host, Lower(d)) != negated
  {
    var scope := (if negated then "~" else "") + d;
    OneEntry(d, negated);
    OneEntryAdmits(scope, scope, host);
    ScopeLine(scope, selector);
    AsksByScope(scope + "##" + selector, scope, selector, host);
  }

  /** `d,~x##selector` asks for d and its subdomains except x and its subdomains. */
  lemma ExceptedLine(d: string, x: string, selector: string, host: string)
    requires HostValid(d) && HostValid(x) && ValidSelector(selector) && Short(d + "," + ("~" + x), selector)
    ensures var scope := d + "," + ("~" + x);
            Asks(scope + "##" + selector, Canonical(selector), host)
            <==> MatchesDomain(host, Lower(d)) && !MatchesDomain(host, Lower(x))
  {
    var scope := d + "," + ("~" + x);
    TwoEntries(d, x);
    TwoEntriesAdmit(scope, d, "~" + x, host);
    ScopeLine(scope, selector);
    AsksByScope(scope + "##" + selector, scope, selector, host);
  }

  // The pages an exemption names

  /** A pattern names the host that stands between its two bars and the first `^` or `/`. */
  lemma AnchoredHostIs(pattern: string, page: string)
    ensures AnchoredHost(pattern) == Some(page)
            <==> exists h :: HostValid(h) && page == Lower(h)
                             && (StartsWith(pattern, "||" + h + "^") || StartsWith(pattern, "||" + h + "/"))
  {
    if AnchoredHost(pattern) == Some(page) {
      AnchoredText(pattern);
    }
    if h :| HostValid(h) && page == Lower(h) && (StartsWith(pattern, "||" + h + "^") || StartsWith(pattern, "||" + h + "/")) {
      AnchoredAt(pattern, h, if StartsWith(pattern, "||" + h + "^") then '^' else '/');
    }
  }

  lemma AnchoredText(pattern: string)
    requires AnchoredHost(pattern).Some?
    ensures exists h :: HostValid(h) && AnchoredHost(pattern) == Some(Lower(h))
                        && (StartsWith(pattern, "||" + h + "^") || StartsWith(pattern, "||" + h + "/"))
  {
    var rest := pattern[2..];
    var caret, slash := IndexOf(rest, '^'), IndexOf(rest, '/');
    var end := if caret < slash then caret else slash;
    var h := rest[..end];
    IndexOfBounds(rest, '^');
    IndexOfBounds(rest, '/');
    assert pattern[..2] == "||" && pattern[..2 + end] == "||" + h;
    assert pattern[..3 + end] == "||" + h + [rest[end]];
    assert StartsWith(pattern, "||" + h + [rest[end]]);
  }

  lemma AnchoredAt(pattern: string, h: string, mark: char)
    requires HostValid(h) && mark in {'^', '/'} && StartsWith(pattern, "||" + h + [mark])
    ensures AnchoredHost(pattern) == Some(Lower(h))
  {
    var rest, n := pattern[2..], |h|;
    HostChars(h);
    var start := "||" + h + [mark];
    assert pattern[..|start|] == start && rest[..n + 1] == start[2..] == h + [mark];
    assert rest[..n] == rest[..n + 1][..n] == h && rest[n] == rest[..n + 1][n] == mark;
    assert pattern[..2] == start[..2] == "||";
    IndexOfIs(rest, mark, n);
    NotBefore(rest, n, if mark == '^' then '/' else '^');
  }

  lemma NotBefore(s: string, n: nat, c: char)
    requires n <= |s| && c !in s[..n]
    ensures IndexOf(s, c) >= n
  {
    IndexOfBounds(s, c);
    assert forall i | 0 <= i < n :: s[i] in s[..n];
  }
}
