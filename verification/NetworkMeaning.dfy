/** What a translated filter line means: the order of its modifiers does not matter,
    and its rules match exactly the requests the line describes. */
module NetworkMeaning {
  import opened Text
  import opened Dnr
  import opened NetworkFilter
  import UrlFilter

  type Bag = multiset<Modifier>

  predicate Supported(m: Modifier) {
    match m.meaning
    case Domains(scope) => scope.Ok?
    case Unsupported => false
    case _ => true
  }

  predicate Compatible(a: Modifier, b: Modifier) {
    a.key != b.key && !(a.meaning.PartyIs? && b.meaning.PartyIs?)
  }

  /** Only `domain=` modifiers restrict the initiator, so their names are all equal. */
  predicate Spelled(m: Modifier) {
    m.meaning.Domains? ==> m.key == "domain"
  }

  /** A bag of modifiers the compiler accepts. */
  ghost predicate Acceptable(bag: Bag) {
    && (forall m | m in bag :: Supported(m) && bag[m] == 1)
    && (forall a, b | a in bag && b in bag && a != b :: Compatible(a, b))
  }

  ghost predicate Asks(bag: Bag, meaning: Meaning) {
    exists m :: m in bag && m.meaning == meaning
  }

  ghost predicate AsksDomains(bag: Bag) {
    exists m :: m in bag && m.meaning.Domains?
  }

  ghost predicate ReflectsParty(bag: Bag, st: Filter) {
    forall party :: st.party == Some(party) <==> Asks(bag, PartyIs(party))
  }

  ghost predicate ReflectsDomains(bag: Bag, st: Filter) {
    && (forall m | m in bag && m.meaning.Domains? ::
          m.meaning.scope == Ok(Scope(st.initiators, st.excludedInitiators)))
    && (!AsksDomains(bag) ==> st.initiators == {} && st.excludedInitiators == {})
  }

  ghost predicate ReflectsKinds(bag: Bag, st: Filter) {
    forall kind :: (kind in st.positive <==> Asks(bag, TypeIs(false, kind)))
                   && (kind in st.negative <==> Asks(bag, TypeIs(true, kind)))
  }

  ghost predicate ReflectsSeen(bag: Bag, st: Filter) {
    forall key :: key in st.seen <==> exists m :: m in bag && m.key == key
  }

  /** The filter state says of each modifier exactly what that modifier asks for. */
  ghost predicate Reflects(bag: Bag, st: Filter) {
    && ReflectsParty(bag, st)
    && (st.caseSensitive <==> Asks(bag, MatchCase))
    && (st.document <==> Asks(bag, Document))
    && ReflectsDomains(bag, st)
    && ReflectsKinds(bag, st)
    && ReflectsSeen(bag, st)
  }

  lemma StepAccepts(bag: Bag, st: Filter, m: Modifier)
    requires Reflects(bag, st)
    ensures Step(st, m).Ok? <==> Supported(m) && forall o | o in bag :: Compatible(o, m)
  {
    assert st.party.Some? ==> Asks(bag, PartyIs(st.party.value));
    forall o | o in bag && o.meaning.PartyIs? ensures st.party.Some? {
      assert Asks(bag, PartyIs(o.meaning.party));
    }
  }

  lemma AsksSnoc(bag: Bag, m: Modifier, meaning: Meaning)
    ensures Asks(bag + multiset{m}, meaning) <==> Asks(bag, meaning) || m.meaning == meaning
  {
    var all := bag + multiset{m};
    assert m in all;
    if Asks(bag, meaning) {
      var o :| o in bag && o.meaning == meaning;
      assert o in all;
    }
  }

  lemma SeenSnoc(bag: Bag, st: Filter, m: Modifier)
    requires ReflectsSeen(bag, st) && Step(st, m).Ok?
    ensures ReflectsSeen(bag + multiset{m}, Step(st, m).value)
  {
    var next, all := Step(st, m).value, bag + multiset{m};
    assert next.seen == st.seen + {m.key};
    assert m in all;
    forall key | key in st.seen ensures exists o :: o in all && o.key == key {
      var o :| o in bag && o.key == key;
      assert o in all;
    }
  }

  lemma DomainsSnoc(bag: Bag, st: Filter, m: Modifier)
    requires ReflectsSeen(bag, st) && ReflectsDomains(bag, st) && Step(st, m).Ok?
    requires Spelled(m) && forall o | o in bag :: Spelled(o)
    ensures ReflectsDomains(bag + multiset{m}, Step(st, m).value)
  {
    var all := bag + multiset{m};
    assert forall o :: o in all <==> o in bag || o == m;
    if m.meaning.Domains? {
      assert "domain" !in st.seen;
      assert forall o | o in bag :: !o.meaning.Domains?;
      assert m in all;
    } else {
      assert AsksDomains(bag) ==> AsksDomains(all);
    }
  }

  lemma PartySnoc(bag: Bag, st: Filter, m: Modifier)
    requires ReflectsParty(bag, st) && Step(st, m).Ok?
    ensures ReflectsParty(bag + multiset{m}, Step(st, m).value)
  {
    forall party ensures Step(st, m).value.party == Some(party) <==> Asks(bag + multiset{m}, PartyIs(party)) {
      AsksSnoc(bag, m, PartyIs(party));
      assert Asks(bag, PartyIs(party)) ==> st.party.Some?;
    }
  }

  lemma KindsSnoc(bag: Bag, st: Filter, m: Modifier)
    requires ReflectsKinds(bag, st) && Step(st, m).Ok?
    ensures ReflectsKinds(bag + multiset{m}, Step(st, m).value)
  {
    forall negated, kind { AsksSnoc(bag, m, TypeIs(negated, kind)); }
  }

  lemma StepReflects(bag: Bag, st: Filter, m: Modifier)
    requires Reflects(bag, st) && Step(st, m).Ok?
    requires Spelled(m) && forall o | o in bag :: Spelled(o)
    ensures Reflects(bag + multiset{m}, Step(st, m).value)
  {
    SeenSnoc(bag, st, m);
    DomainsSnoc(bag, st, m);
    PartySnoc(bag, st, m);
    KindsSnoc(bag, st, m);
    AsksSnoc(bag, m, MatchCase);
    AsksSnoc(bag, m, Document);
  }

  lemma AcceptableSnoc(bag: Bag, m: Modifier)
    ensures Acceptable(bag + multiset{m})
            <==> Acceptable(bag) && Supported(m) && forall o | o in bag :: Compatible(o, m)
  {
    var all := bag + multiset{m};
    assert forall o :: o in all <==> o in bag || o == m;
    if Acceptable(all) {
      forall o | o in bag ensures Supported(o) && bag[o] == 1 && Compatible(o, m) {
        assert o in all && m in all && all[m] == 1;
      }
      forall a, b | a in bag && b in bag && a != b ensures Compatible(a, b) { assert a in all && b in all; }
    }
  }

  ghost predicate AllSpelled(modifiers: seq<Modifier>) {
    forall m | m in modifiers :: Spelled(m)
  }

  /** The loop over the modifiers succeeds exactly on acceptable bags. */
  lemma {:induction false} CombineAsBag(modifiers: seq<Modifier>)
    requires AllSpelled(modifiers)
    ensures Combine(modifiers).Ok? <==> Acceptable(multiset(modifiers))
    ensures Combine(modifiers).Ok? ==> Reflects(multiset(modifiers), Combine(modifiers).value)
    decreases |modifiers|
  {
    if modifiers != [] {
      var front, last := modifiers[..|modifiers| - 1], modifiers[|modifiers| - 1];
      assert modifiers == front + [last];
      CombineAsBag(front);
      AcceptableSnoc(multiset(front), last);
      if Combine(front).Ok? {
        var st := Combine(front).value;
        StepAccepts(multiset(front), st, last);
        if Step(st, last).Ok? { StepReflects(multiset(front), st, last); }
      }
    }
  }

  lemma ReflectsUnique(bag: Bag, a: Filter, b: Filter)
    requires Reflects(bag, a) && Reflects(bag, b)
    ensures a == b
  {
    assert a.party == b.party by {
      assert a.party == Some(ThirdParty) <==> b.party == Some(ThirdParty);
      assert a.party == Some(FirstParty) <==> b.party == Some(FirstParty);
    }
    assert a.positive == b.positive && a.negative == b.negative && a.seen == b.seen;
    if m :| m in bag && m.meaning.Domains? {
      assert m.meaning.scope == Ok(Scope(a.initiators, a.excludedInitiators));
    }
  }

  /** Reordering a filter's modifiers changes neither acceptance nor the rules. */
  lemma ModifierOrderIrrelevant(pattern: string, exception: bool, a: seq<Modifier>, b: seq<Modifier>)
    requires multiset(a) == multiset(b) && AllSpelled(a)
    ensures Translate(pattern, exception, a).Ok? <==> Translate(pattern, exception, b).Ok?
    ensures Translate(pattern, exception, a).Ok? ==> Translate(pattern, exception, a) == Translate(pattern, exception, b)
  {
    forall m | m in b ensures m in a { assert m in multiset(b); }
    CombineAsBag(a);
    CombineAsBag(b);
    if Combine(a).Ok? { ReflectsUnique(multiset(a), Combine(a).value, Combine(b).value); }
  }

  // The requests a line describes, read from its modifiers

  ghost predicate ScopeMatches(scope: Scope, initiator: Option<string>) {
    (scope.yes == {} || FromAny(initiator, scope.yes)) && !FromAny(initiator, scope.no)
  }

  /** The line's party, initiator, case and URL restrictions. */
  ghost predicate LineTargets(pattern: string, bag: Bag, hit: Hit) {
    && UrlFilter.Matches(pattern, Asks(bag, MatchCase), hit.url)
    && (Asks(bag, PartyIs(ThirdParty)) ==> hit.thirdParty)
    && (Asks(bag, PartyIs(FirstParty)) ==> !hit.thirdParty)
    && forall m | m in bag && m.meaning.Domains? :: m.meaning.scope.Ok? && ScopeMatches(m.meaning.scope.value, hit.initiator)
  }

  ghost predicate LineKind(bag: Bag, kind: Kind) {
    && kind != MainFrame
    && ((forall k :: !Asks(bag, TypeIs(false, k))) || Asks(bag, TypeIs(false, kind)))
    && !Asks(bag, TypeIs(true, kind))
  }

  ghost predicate NamesTypes(bag: Bag) {
    exists negated, kind :: Asks(bag, TypeIs(negated, kind))
  }

  lemma TargetsMeaning(pattern: string, bag: Bag, st: Filter, kinds: seq<Kind>, hit: Hit)
    requires Acceptable(bag) && Reflects(bag, st) && forall m | m in bag :: Spelled(m)
    ensures Meets(ConditionOf(pattern, st, kinds), hit) <==> LineTargets(pattern, bag, hit) && hit.kind in kinds
  {
    assert st.party == Some(ThirdParty) <==> Asks(bag, PartyIs(ThirdParty));
    assert st.party == Some(FirstParty) <==> Asks(bag, PartyIs(FirstParty));
    if m :| m in bag && m.meaning.Domains? {
      assert m.meaning.scope == Ok(Scope(st.initiators, st.excludedInitiators));
      forall p | p in bag && p.meaning.Domains? ensures p == m {
        assert p == m || Compatible(p, m);
      }
    }
  }

  lemma ListedKinds(kind: Kind)
    ensures kind in RESOURCE_TYPES <==> kind != MainFrame
  {
    var r := RESOURCE_TYPES;
    assert r[0] == SubFrame && r[1] == Stylesheet && r[2] == Script && r[3] == Image && r[4] == Font && r[5] == Object
           && r[6] == XmlHttpRequest && r[7] == Ping && r[8] == Media && r[9] == WebSocket && r[10] == Other;
  }

  lemma SortedKinds(kind: Kind)
    ensures kind in SORTED_TYPES <==> kind != MainFrame
  {
    var s := SORTED_TYPES;
    assert s[0] == Font && s[1] == Image && s[2] == Media && s[3] == Object && s[4] == Other && s[5] == Ping
           && s[6] == Script && s[7] == Stylesheet && s[8] == SubFrame && s[9] == WebSocket && s[10] == XmlHttpRequest;
  }

  lemma AllKinds(kind: Kind)
    ensures kind in RESOURCE_TYPES <==> kind != MainFrame
    ensures kind in SORTED_TYPES <==> kind != MainFrame
    ensures kind in FRAME_TYPES <==> kind == MainFrame || kind == SubFrame
  {
    ListedKinds(kind);
    SortedKinds(kind);
    assert FRAME_TYPES[0] == MainFrame && FRAME_TYPES[1] == SubFrame;
  }

  lemma KindsMeaning(bag: Bag, st: Filter, kind: Kind)
    requires Reflects(bag, st)
    ensures kind in Kinds(st) <==> LineKind(bag, kind)
    ensures st.positive != {} || st.negative != {} <==> NamesTypes(bag)
  {
    AllKinds(kind);
    assert st.positive == {} <==> forall k :: !Asks(bag, TypeIs(false, k)) by {
      if k :| Asks(bag, TypeIs(false, k)) { assert k in st.positive; }
      if k :| k in st.positive { assert Asks(bag, TypeIs(false, k)); }
    }
    if negated, k :| Asks(bag, TypeIs(negated, k)) {
      assert k in if negated then st.negative else st.positive;
    }
    if k :| k in st.negative { assert Asks(bag, TypeIs(true, k)); }
  }

  /** Some rule that lets whole frames through (or, for false, some other rule) matches. */
  ghost predicate AnyMeets(rules: seq<Rule>, wholeFrames: bool, hit: Hit) {
    exists r :: r in rules && (r.action == AllowAllRequests) == wholeFrames && Meets(r.condition, hit)
  }

  lemma AnyMeetsOf(rules: seq<Rule>, frame: Rule, plain: Rule, hasFrame: bool, hasPlain: bool, hit: Hit)
    requires rules == (if hasFrame then [frame] else []) + (if hasPlain then [plain] else [])
    requires frame.action == AllowAllRequests && plain.action != AllowAllRequests
    ensures AnyMeets(rules, true, hit) <==> hasFrame && Meets(frame.condition, hit)
    ensures AnyMeets(rules, false, hit) <==> hasPlain && Meets(plain.condition, hit)
  {
    assert hasFrame ==> frame in rules;
    assert hasPlain ==> plain in rules;
    assert forall r | r in rules :: (hasFrame && r == frame) || (hasPlain && r == plain);
  }

  /** A translated line: its block or allow rule matches exactly the requests the line describes,
      and `document` lets whole frames through under the same restrictions. */
  lemma LineMeaning(pattern: string, exception: bool, modifiers: seq<Modifier>, hit: Hit)
    requires AllSpelled(modifiers) && Translate(pattern, exception, modifiers).Ok?
    ensures var rules, bag := Translate(pattern, exception, modifiers).value, multiset(modifiers);
            && (AnyMeets(rules, false, hit)
                <==> LineTargets(pattern, bag, hit) && LineKind(bag, hit.kind)
                     && (Asks(bag, Document) ==> NamesTypes(bag)))
            && (AnyMeets(rules, true, hit)
                <==> LineTargets(pattern, bag, hit) && Asks(bag, Document) && hit.kind in FRAME_TYPES)
  {
    var bag := multiset(modifiers);
    CombineAsBag(modifiers);
    var st := Combine(modifiers).value;
    var rules := Translate(pattern, exception, modifiers).value;
    KindsMeaning(bag, st, hit.kind);
    TargetsMeaning(pattern, bag, st, Kinds(st), hit);
    TargetsMeaning(pattern, bag, st, FRAME_TYPES, hit);
    RulesShape(pattern, exception, st, rules);
    AnyMeetsOf(rules, FrameRule(pattern, st), PlainRule(pattern, exception, st),
               st.document, !st.document || NamesTypes(bag), hit);
  }

  // From the text of a line

  lemma OptionSpelled(exception: bool, option: string)
    ensures Spelled(ModifierOf(exception, option))
  {
    if StartsWith(option, "domain=") {
      assert option[..7] == "domain=";
      assert option[6] == '=' && option[..6] == option[..7][..6] == "domain";
      IndexOfIs(option, '=', 6);
    }
  }

  lemma LineSpelled(exception: bool, options: seq<string>)
    ensures AllSpelled(ModifiersOf(exception, options))
  {
    forall m | m in ModifiersOf(exception, options) ensures Spelled(m) {
      var i :| 0 <= i < |options| && ModifiersOf(exception, options)[i] == m;
      OptionSpelled(exception, options[i]);
    }
  }
}
