/** What the words of a filter line ask for, read from its text: the party, the case, the initiators,
    the resource types and the page. */
module NetworkText {
  import opened Text
  import opened Dnr
  import opened NetworkFilter
  import opened NetworkMeaning
  import opened ScopeText
  import UrlFilter

  // Words

  predicate ThirdPartyWord(o: string) {
    o == "third-party" || o == "3p" || o == "~first-party" || o == "~1p"
  }

  predicate FirstPartyWord(o: string) {
    o == "first-party" || o == "1p" || o == "~third-party" || o == "~3p"
  }

  /** The words for each type of resource. */
  predicate TypeWord(w: string, kind: Kind) {
    match kind
    case MainFrame => false
    case SubFrame => w == "subdocument"
    case Stylesheet => w == "stylesheet"
    case Script => w == "script"
    case Image => w == "image"
    case Font => w == "font"
    case Object => w == "object"
    case XmlHttpRequest => w == "xmlhttprequest" || w == "xhr"
    case Ping => w == "ping"
    case Media => w == "media"
    case WebSocket => w == "websocket"
    case Other => w == "other"
  }

  /** A type word after one or more "~". */
  predicate NegatedType(o: string, kind: Kind) {
    o != "" && o[0] == '~' && TypeWord(TrimStartChar(o, '~'), kind)
  }

  predicate DomainWord(o: string) { StartsWith(o, "domain=") }

  // Each word has one meaning

  predicate Letters(s: string) { forall c | c in s :: IsLower(c) }

  lemma TypeLetters(w: string, kind: Kind)
    requires TypeWord(w, kind)
    ensures Letters(w) && w != ""
  {
  }

  lemma TypeMeans(w: string, kind: Kind)
    ensures Resource(w) == Some(kind) <==> TypeWord(w, kind)
  {
  }

  /** No other word is a type word, whatever "~" it begins with. */
  predicate OddWord(o: string) { ThirdPartyWord(o) || FirstPartyWord(o) || o == "match-case" || DomainWord(o) }

  lemma OddChars(o: string)
    requires OddWord(o)
    ensures '-' in o || '3' in o || '1' in o || '=' in o
  {
    if o == "third-party" || o == "first-party" {
      assert o[5] == '-';
    } else if o == "~third-party" || o == "~first-party" {
      assert o[6] == '-';
    } else if o == "3p" || o == "1p" {
      assert o[0] == '3' || o[0] == '1';
    } else if o == "~3p" || o == "~1p" {
      assert o[1] == '3' || o[1] == '1';
    } else if o == "match-case" {
      assert o[5] == '-';
    } else {
      assert o[..7][6] == '=';
    }
  }

  lemma TrimmedLetters(o: string, c: char)
    requires Letters(TrimStartChar(o, '~')) && c in o
    ensures IsLower(c) || c == '~'
  {
    TrimStartCharIs(o, '~');
    var k, r :| 0 <= k < |o| && o[k] == c && r == TrimStartChar(o, '~');
    if k >= |o| - |r| { assert r[k - (|o| - |r|)] == c; }
  }

  lemma OddNotType(o: string, kind: Kind)
    requires OddWord(o)
    ensures !TypeWord(TrimStartChar(o, '~'), kind)
  {
    if TypeWord(TrimStartChar(o, '~'), kind) {
      TypeLetters(TrimStartChar(o, '~'), kind);
      OddChars(o);
      var c :| c in o && c in {'-', '3', '1', '='};
      TrimmedLetters(o, c);
    }
  }

  lemma DocumentNotType(kind: Kind)
    ensures !TypeWord(TrimStartChar("document", '~'), kind)
  {
    assert "document"[0] == 'd' && "document"[1] == 'o';
    assert TrimStartChar("document", '~') == "document";
  }

  lemma PartyMeans(exception: bool, o: string)
    ensures MeaningOf(exception, o) == PartyIs(ThirdParty) <==> ThirdPartyWord(o)
    ensures MeaningOf(exception, o) == PartyIs(FirstParty) <==> FirstPartyWord(o)
  {
  }

  lemma CaseMeans(exception: bool, o: string)
    ensures MeaningOf(exception, o) == MatchCase <==> o == "match-case"
  {
  }

  lemma DocumentMeans(exception: bool, o: string)
    ensures MeaningOf(exception, o) == Document <==> exception && o == "document"
  {
  }

  lemma DomainApart(o: string)
    requires DomainWord(o)
    ensures !ThirdPartyWord(o) && !FirstPartyWord(o) && o != "match-case" && o != "document"
  {
    assert o[..7][0] == 'd' && o[..7][6] == '=';
    assert "document"[6] == 'n';
  }

  lemma DomainMeans(exception: bool, o: string)
    ensures MeaningOf(exception, o).Domains? <==> DomainWord(o)
    ensures DomainWord(o) ==> MeaningOf(exception, o) == Domains(DomainScope(o[7..]))
  {
    if DomainWord(o) { DomainApart(o); }
  }

  lemma TypeUntrimmed(o: string, kind: Kind)
    ensures TypeWord(o, kind) <==> TypeWord(TrimStartChar(o, '~'), kind) && (o == "" || o[0] != '~')
  {
    if TypeWord(o, kind) { TypeLetters(o, kind); }
  }

  lemma TildeStart(o: string)
    ensures StartsWith(o, "~") <==> o != "" && o[0] == '~'
  {
  }

  lemma OddMeans(exception: bool, o: string)
    requires OddWord(o) || (o == "document" && exception)
    ensures !MeaningOf(exception, o).TypeIs?
  {
  }

  lemma PlainMeans(exception: bool, o: string, kind: Kind)
    requires !OddWord(o) && !(o == "document" && exception)
    ensures MeaningOf(exception, o) == TypeIs(StartsWith(o, "~"), kind) <==> TypeWord(TrimStartChar(o, '~'), kind)
    ensures MeaningOf(exception, o) != TypeIs(!StartsWith(o, "~"), kind)
  {
    TypeMeans(TrimStartChar(o, '~'), kind);
  }

  lemma TypeIsMeans(exception: bool, o: string, kind: Kind)
    ensures MeaningOf(exception, o) == TypeIs(false, kind) <==> TypeWord(o, kind)
    ensures MeaningOf(exception, o) == TypeIs(true, kind) <==> NegatedType(o, kind)
  {
    TypeUntrimmed(o, kind);
    TildeStart(o);
    if OddWord(o) || (o == "document" && exception) {
      OddMeans(exception, o);
      if OddWord(o) { OddNotType(o, kind); } else { DocumentNotType(kind); }
    } else {
      PlainMeans(exception, o, kind);
    }
  }

  // What a line describes

  ghost predicate AsksWord(raw: string, meaning: Meaning) {
    exists o :: o in Options(raw) && MeaningOf(IsException(raw), o) == meaning
  }

  ghost function BagOf(raw: string): Bag { multiset(LineModifiers(raw)) }

  lemma ModifierFrom(raw: string, m: Modifier)
    ensures m in BagOf(raw) <==> exists o :: o in Options(raw) && ModifierOf(IsException(raw), o) == m
  {
    var options, modifiers := Options(raw), LineModifiers(raw);
    if m in BagOf(raw) {
      var i :| 0 <= i < |modifiers| && modifiers[i] == m;
      assert options[i] in options;
    }
    if o :| o in options && ModifierOf(IsException(raw), o) == m {
      var i :| 0 <= i < |options| && options[i] == o;
      assert modifiers[i] == m;
    }
  }

  lemma AsksReads(raw: string, meaning: Meaning)
    ensures Asks(BagOf(raw), meaning) <==> AsksWord(raw, meaning)
  {
    if Asks(BagOf(raw), meaning) {
      var m :| m in BagOf(raw) && m.meaning == meaning;
      ModifierFrom(raw, m);
    }
    if o :| o in Options(raw) && MeaningOf(IsException(raw), o) == meaning {
      ModifierFrom(raw, ModifierOf(IsException(raw), o));
    }
  }

  /** The words of a line about where a request goes and comes from. */
  ghost predicate Targets(raw: string, hit: Hit) {
    && UrlFilter.Matches(Pattern(raw), "match-case" in Options(raw), hit.url)
    && forall o | o in Options(raw) ::
         && (ThirdPartyWord(o) ==> hit.thirdParty)
         && (FirstPartyWord(o) ==> !hit.thirdParty)
         && (DomainWord(o) ==> Admits(o[7..], '|', hit.initiator))
  }

  /** The words of a line about the type of a resource: one of the plain ones names it, or there is
      none, and no negated one does. */
  ghost predicate AllowsKind(raw: string, kind: Kind) {
    && kind != MainFrame
    && ((forall o, k | o in Options(raw) :: !TypeWord(o, k)) || exists o :: o in Options(raw) && TypeWord(o, kind))
    && forall o | o in Options(raw) :: !NegatedType(o, kind)
  }

  /** The line is about whole pages. */
  predicate PageLine(raw: string) { IsException(raw) && "document" in Options(raw) }

  ghost predicate TypedLine(raw: string) {
    exists o, k :: o in Options(raw) && (TypeWord(o, k) || NegatedType(o, k))
  }

  lemma PartyReads(raw: string, third: bool)
    ensures Asks(BagOf(raw), PartyIs(if third then ThirdParty else FirstParty))
            <==> exists o :: o in Options(raw) && if third then ThirdPartyWord(o) else FirstPartyWord(o)
  {
    AsksReads(raw, PartyIs(if third then ThirdParty else FirstParty));
    forall o | o in Options(raw)
      ensures MeaningOf(IsException(raw), o) == PartyIs(if third then ThirdParty else FirstParty)
              <==> if third then ThirdPartyWord(o) else FirstPartyWord(o)
    {
      PartyMeans(IsException(raw), o);
    }
  }

  lemma CaseReads(raw: string)
    ensures Asks(BagOf(raw), MatchCase) <==> "match-case" in Options(raw)
  {
    AsksReads(raw, MatchCase);
    forall o | o in Options(raw) ensures MeaningOf(IsException(raw), o) == MatchCase <==> o == "match-case" {
      CaseMeans(IsException(raw), o);
    }
  }

  lemma PageReads(raw: string)
    ensures Asks(BagOf(raw), Document) <==> PageLine(raw)
  {
    AsksReads(raw, Document);
    forall o | o in Options(raw)
      ensures MeaningOf(IsException(raw), o) == Document <==> IsException(raw) && o == "document"
    {
      DocumentMeans(IsException(raw), o);
    }
  }

  lemma TypeReads(raw: string, negated: bool, kind: Kind)
    ensures Asks(BagOf(raw), TypeIs(negated, kind))
            <==> exists o :: o in Options(raw) && if negated then NegatedType(o, kind) else TypeWord(o, kind)
  {
    AsksReads(raw, TypeIs(negated, kind));
    forall o | o in Options(raw)
      ensures MeaningOf(IsException(raw), o) == TypeIs(negated, kind)
              <==> if negated then NegatedType(o, kind) else TypeWord(o, kind)
    {
      TypeIsMeans(IsException(raw), o, kind);
    }
  }

  lemma TypedReads(raw: string)
    ensures NamesTypes(BagOf(raw)) <==> TypedLine(raw)
  {
    if NamesTypes(BagOf(raw)) {
      var negated, kind :| Asks(BagOf(raw), TypeIs(negated, kind));
      TypeReads(raw, negated, kind);
    }
    if o, k :| o in Options(raw) && (TypeWord(o, k) || NegatedType(o, k)) {
      TypeReads(raw, !TypeWord(o, k), k);
    }
  }

  lemma PlainTypes(raw: string)
    ensures (forall k :: !Asks(BagOf(raw), TypeIs(false, k))) <==> forall o, k | o in Options(raw) :: !TypeWord(o, k)
  {
    if k :| Asks(BagOf(raw), TypeIs(false, k)) { TypeReads(raw, false, k); }
    if o, k :| o in Options(raw) && TypeWord(o, k) { TypeReads(raw, false, k); }
  }

  lemma KindReads(raw: string, kind: Kind)
    ensures LineKind(BagOf(raw), kind) <==> AllowsKind(raw, kind)
  {
    TypeReads(raw, true, kind);
    TypeReads(raw, false, kind);
    PlainTypes(raw);
  }

  ghost predicate DomainMeets(meaning: Meaning, initiator: Option<string>) {
    meaning.Domains? ==> meaning.scope.Ok? && ScopeMatches(meaning.scope.value, initiator)
  }

  lemma ScopeMeets(value: string, initiator: Option<string>)
    requires DomainScope(value).Ok?
    ensures DomainMeets(Domains(DomainScope(value)), initiator) <==> Admits(value, '|', initiator)
  {
    ScopeAdmits(value, '|', DomainScope(value).value, initiator);
  }

  /** One modifier of a line says about the initiator what its text says. */
  lemma DomainReads(exception: bool, o: string, initiator: Option<string>)
    requires Supported(ModifierOf(exception, o))
    ensures DomainMeets(MeaningOf(exception, o), initiator) <==> (DomainWord(o) ==> Admits(o[7..], '|', initiator))
  {
    DomainMeans(exception, o);
    if DomainWord(o) { ScopeMeets(o[7..], initiator); }
  }

  ghost predicate DomainsMeet(bag: Bag, initiator: Option<string>) {
    forall m | m in bag :: DomainMeets(m.meaning, initiator)
  }

  ghost predicate DomainsAdmit(raw: string, initiator: Option<string>) {
    forall o | o in Options(raw) && DomainWord(o) :: Admits(o[7..], '|', initiator)
  }

  lemma DomainsRead(raw: string, initiator: Option<string>)
    requires forall m | m in BagOf(raw) :: Supported(m)
    ensures DomainsAdmit(raw, initiator) <==> DomainsMeet(BagOf(raw), initiator)
  {
    var exception := IsException(raw);
    forall o | o in Options(raw)
      ensures ModifierOf(exception, o) in BagOf(raw)
      ensures DomainMeets(MeaningOf(exception, o), initiator) <==> (DomainWord(o) ==> Admits(o[7..], '|', initiator))
    {
      ModifierFrom(raw, ModifierOf(exception, o));
      DomainReads(exception, o, initiator);
    }
    if DomainsAdmit(raw, initiator) {
      forall m | m in BagOf(raw) ensures DomainMeets(m.meaning, initiator) { ModifierFrom(raw, m); }
    }
    if DomainsMeet(BagOf(raw), initiator) {
      forall o | o in Options(raw) && DomainWord(o) ensures Admits(o[7..], '|', initiator) {
        assert DomainMeets(ModifierOf(exception, o).meaning, initiator);
      }
    }
  }

  lemma TargetsRead(raw: string, hit: Hit)
    requires forall m | m in BagOf(raw) :: Supported(m)
    ensures LineTargets(Pattern(raw), BagOf(raw), hit) <==> Targets(raw, hit)
  {
    CaseReads(raw);
    PartyReads(raw, true);
    PartyReads(raw, false);
    DomainsRead(raw, hit.initiator);
  }

  lemma LineSupported(raw: string)
    requires Network(raw).Ok?
    ensures forall m | m in BagOf(raw) :: Supported(m)
  {
    LineSpelled(IsException(raw), Options(raw));
    CombineAsBag(LineModifiers(raw));
  }

  /** A line that compiles: its block or allow rule matches exactly the requests that the words of its
      text describe, and `document` lets whole frames through under the same words. */
  lemma LineReads(raw: string, hit: Hit)
    requires Network(raw).Ok?
    ensures AnyMeets(Network(raw).value, false, hit)
            <==> Targets(raw, hit) && AllowsKind(raw, hit.kind) && (PageLine(raw) ==> TypedLine(raw))
    ensures AnyMeets(Network(raw).value, true, hit)
            <==> Targets(raw, hit) && PageLine(raw) && (hit.kind == MainFrame || hit.kind == SubFrame)
  {
    LineSupported(raw);
    LineSpelled(IsException(raw), Options(raw));
    LineMeaning(Pattern(raw), IsException(raw), LineModifiers(raw), hit);
    TargetsRead(raw, hit);
    KindReads(raw, hit.kind);
    PageReads(raw);
    TypedReads(raw);
    AllKinds(hit.kind);
  }

  // Patterns

  predicate PatternChars(s: string) { forall c | c in s :: 0x21 <= c as int <= 0x7e && c != '\\' && c != '$' && c != '#' }

  /** Anchors around a core: nothing, one bar or two before it, and nothing or one bar after it. */
  ghost predicate Anchored(pattern: string) {
    exists left, core, right ::
      && (left == "" || left == "|" || left == "||") && (right == "" || right == "|")
      && pattern == left + core + right && core != "" && '|' !in core
  }

  predicate RegexLike(pattern: string) { |pattern| > 1 && pattern[0] == '/' && pattern[|pattern| - 1] == '/' }

  lemma AnchoredParts(pattern: string)
    requires StripPattern(pattern) != "" && '|' !in StripPattern(pattern)
    ensures Anchored(pattern)
  {
    var left := if StartsWith(pattern, "||") then "||" else if StartsWith(pattern, "|") then "|" else "";
    var rest := pattern[|left|..];
    var core := StripPattern(pattern);
    var right := if EndsWith(rest, "|") then "|" else "";
    assert pattern == left + rest && rest == core + right;
    assert pattern == left + core + right;
  }

  lemma AnchoredStrips(pattern: string, left: string, core: string, right: string)
    requires (left == "" || left == "|" || left == "||") && (right == "" || right == "|")
    requires pattern == left + core + right && core != "" && '|' !in core
    ensures StripPattern(pattern) == core
  {
    var rest := core + right;
    assert pattern == left + rest && rest[0] == core[0] && core[0] in core;
    LeftStrips(left, rest);
    RightStrips(core, right);
  }

  lemma LeftStrips(left: string, rest: string)
    requires (left == "" || left == "|" || left == "||") && rest != "" && rest[0] != '|'
    ensures var p := left + rest;
            (if StartsWith(p, "||") then p[2..] else if StartsWith(p, "|") then p[1..] else p) == rest
  {
    var p := left + rest;
    assert p[|left|..] == rest && p[..|left|] == left && p[|left|] == rest[0];
    if left == "" {
      assert p == rest;
    } else if left == "|" {
      assert p[..2][1] == rest[0];
    }
  }

  lemma RightStrips(core: string, right: string)
    requires (right == "" || right == "|") && core != "" && '|' !in core
    ensures var rest := core + right; (if EndsWith(rest, "|") then rest[..|rest| - 1] else rest) == core
  {
    var rest := core + right;
    if right == "|" {
      assert rest[|core|..] == "|" && rest[..|core|] == core;
    } else {
      assert rest == core && rest[|rest| - 1..][0] == core[|core| - 1] && core[|core| - 1] in core;
    }
  }

  /** A pattern is accepted exactly when it has such anchors around a core without bars, is no regular
      expression, has no wildcard for a host, and is plain and short. */
  lemma PatternReads(pattern: string)
    ensures PatternValid(pattern)
            <==> Anchored(pattern) && PatternChars(pattern) && |pattern| <= 2_048 && !StartsWith(pattern, "||*")
                 && !RegexLike(pattern)
  {
    CoreReads(pattern);
    RegexReads(pattern);
  }

  lemma CoreReads(pattern: string)
    ensures StripPattern(pattern) != "" && '|' !in StripPattern(pattern) <==> Anchored(pattern)
  {
    if StripPattern(pattern) != "" && '|' !in StripPattern(pattern) { AnchoredParts(pattern); }
    if Anchored(pattern) {
      var left, core, right :|
        && (left == "" || left == "|" || left == "||") && (right == "" || right == "|")
        && pattern == left + core + right && core != "" && '|' !in core;
      AnchoredStrips(pattern, left, core, right);
    }
  }

  lemma RegexReads(pattern: string)
    ensures StartsWith(pattern, "/") && EndsWith(pattern, "/") && |pattern| > 1 <==> RegexLike(pattern)
  {
    if |pattern| > 1 {
      assert pattern[..1] == "/" <==> pattern[0] == '/';
      assert pattern[|pattern| - 1..] == "/" <==> pattern[|pattern| - 1] == '/';
    }
  }

  // Which lines compile

  function KeyOf(o: string): string { o[..IndexOf(o, '=')] }

  predicate PartyWord(o: string) { ThirdPartyWord(o) || FirstPartyWord(o) }

  ghost predicate KnownWord(exception: bool, o: string) {
    || PartyWord(o) || o == "match-case" || (o == "document" && exception)
    || (DomainWord(o) && o != "domain=" && GoodScope(o[7..], '|'))
    || exists kind :: TypeWord(o, kind) || NegatedType(o, kind)
  }

  /** Every word is known, none is repeated, at most one is about the party, and some type of resource
      is left. */
  ghost predicate GoodLine(raw: string) {
    var options := Options(raw);
    && PatternValid(Pattern(raw))
    && (forall o | o in options :: KnownWord(IsException(raw), o))
    && (forall i, j | 0 <= i < j < |options| ::
          KeyOf(options[i]) != KeyOf(options[j]) && !(PartyWord(options[i]) && PartyWord(options[j])))
    && exists kind :: AllowsKind(raw, kind)
  }

  lemma WordSupported(exception: bool, o: string)
    ensures Supported(ModifierOf(exception, o)) <==> KnownWord(exception, o)
  {
    PartyMeans(exception, o);
    CaseMeans(exception, o);
    DocumentMeans(exception, o);
    DomainMeans(exception, o);
    forall kind { TypeIsMeans(exception, o, kind); }
    if DomainWord(o) { ScopeReads(o[7..], '|'); }
  }

  ghost predicate Pairwise(ms: seq<Modifier>) {
    && (forall m | m in ms :: Supported(m))
    && forall i, j | 0 <= i < j < |ms| :: Compatible(ms[i], ms[j])
  }

  lemma {:induction false} AcceptablePairs(ms: seq<Modifier>)
    ensures Acceptable(multiset(ms)) <==> Pairwise(ms)
  {
    if ms != [] {
      var front, last := ms[..|ms| - 1], ms[|ms| - 1];
      AcceptablePairs(front);
      AcceptableSnoc(multiset(front), last);
      assert ms == front + [last];
      PairsSnoc(front, last);
    }
  }

  lemma PairsSnoc(front: seq<Modifier>, last: Modifier)
    ensures Pairwise(front + [last])
            <==> Pairwise(front) && Supported(last) && forall o | o in front :: Compatible(o, last)
  {
    var ms := front + [last];
    assert forall m :: m in ms <==> m in front || m == last;
    if Pairwise(ms) {
      forall o | o in front ensures Compatible(o, last) {
        var i :| 0 <= i < |front| && front[i] == o;
        assert Compatible(ms[i], ms[|front|]);
      }
      forall i, j | 0 <= i < j < |front| ensures Compatible(front[i], front[j]) { assert Compatible(ms[i], ms[j]); }
    }
  }

  lemma PairsRead(raw: string)
    ensures Pairwise(LineModifiers(raw))
            <==> (forall o | o in Options(raw) :: KnownWord(IsException(raw), o))
                 && forall i, j | 0 <= i < j < |Options(raw)| ::
                      KeyOf(Options(raw)[i]) != KeyOf(Options(raw)[j])
                      && !(PartyWord(Options(raw)[i]) && PartyWord(Options(raw)[j]))
  {
    var options, ms := Options(raw), LineModifiers(raw);
    forall i | 0 <= i < |options|
      ensures Supported(ms[i]) <==> KnownWord(IsException(raw), options[i])
      ensures ms[i].meaning.PartyIs? <==> PartyWord(options[i])
      ensures ms[i].key == KeyOf(options[i]) && ms[i] in ms && options[i] in options
    {
      WordSupported(IsException(raw), options[i]);
      PartyMeans(IsException(raw), options[i]);
    }
  }

  lemma KindsLeft(raw: string)
    requires Combine(LineModifiers(raw)).Ok?
    ensures Kinds(Combine(LineModifiers(raw)).value) != [] <==> exists kind :: AllowsKind(raw, kind)
  {
    LineSpelled(IsException(raw), Options(raw));
    CombineAsBag(LineModifiers(raw));
    var st := Combine(LineModifiers(raw)).value;
    forall kind ensures kind in Kinds(st) <==> AllowsKind(raw, kind) {
      KindsMeaning(BagOf(raw), st, kind);
      KindReads(raw, kind);
    }
    if Kinds(st) != [] { assert Kinds(st)[0] in Kinds(st); }
  }

  lemma TranslationSteps(pattern: string, exception: bool, modifiers: seq<Modifier>)
    ensures Translate(pattern, exception, modifiers).Ok?
            <==> PatternValid(pattern) && Combine(modifiers).Ok? && Kinds(Combine(modifiers).value) != []
  {
  }

  lemma WordsAccepted(raw: string)
    ensures Combine(LineModifiers(raw)).Ok? <==> Pairwise(LineModifiers(raw))
  {
    LineSpelled(IsException(raw), Options(raw));
    CombineAsBag(LineModifiers(raw));
    AcceptablePairs(LineModifiers(raw));
  }

  /** A line compiles exactly when its text is good. */
  lemma LineAccepted(raw: string)
    ensures Network(raw).Ok? <==> GoodLine(raw)
  {
    TranslationSteps(Pattern(raw), IsException(raw), LineModifiers(raw));
    WordsAccepted(raw);
    PairsRead(raw);
    if Combine(LineModifiers(raw)).Ok? { KindsLeft(raw); }
  }
}
