/** Translation of one subscription network filter line into browser rules. */
module NetworkFilter {
  import opened Text
  import opened Hosts
  import opened Dnr
  import opened Reasons

  datatype Result<+T> = Ok(value: T) | Err(reason: Reason)

  /** Blockable resource types in the order the companion lists them. */
  const RESOURCE_TYPES: seq<Kind> := [
    SubFrame, Stylesheet, Script, Image, Font, Object, XmlHttpRequest, Ping, Media, WebSocket, Other]

  /** The same types in the order an ordered set of their names iterates over them. */
  const SORTED_TYPES: seq<Kind> := [
    Font, Image, Media, Object, Other, Ping, Script, Stylesheet, SubFrame, WebSocket, XmlHttpRequest]

  const FRAME_TYPES: seq<Kind> := [MainFrame, SubFrame]

  const MAX_SCOPE := 200
  const MAX_PATTERN := 2048

  // Domain scopes

  /** One entry of a scope: a domain, negated by a leading "~". */
  datatype Item = Item(negated: bool, domain: string, valid: bool)

  function ItemOf(text: string): Item {
    var domain := StripPrefix(text, "~");
    Item(StartsWith(text, "~"), Lower(domain), HostValid(domain))
  }

  function ItemsOf(value: string, delimiter: char): seq<Item> {
    var parts := Split(value, delimiter);
    seq(|parts|, i requires 0 <= i < |parts| => ItemOf(parts[i]))
  }

  function Named(items: seq<Item>, negated: bool): set<string> {
    set item | item in items && item.negated == negated :: item.domain
  }

  predicate AllValid(items: seq<Item>) {
    forall item | item in items :: item.valid
  }

  datatype Scope = Scope(yes: set<string>, no: set<string>)

  function ScopeOfItems(items: seq<Item>): Result<Scope> {
    if !AllValid(items) then Err(BadScope)
    else if |Named(items, false)| > MAX_SCOPE || |Named(items, true)| > MAX_SCOPE then Err(ScopeTooLong)
    else Ok(Scope(Named(items, false), Named(items, true)))
  }

  /** What a scope list denotes, or why it is refused. */
  function ScopesOf(value: string, delimiter: char): Result<Scope> {
    if value == "" then Ok(Scope({}, {})) else ScopeOfItems(ItemsOf(value, delimiter))
  }

  lemma NamedSnoc(items: seq<Item>, i: nat, negated: bool)
    requires i < |items|
    ensures Named(items[..i + 1], negated)
            == Named(items[..i], negated) + if items[i].negated == negated then {items[i].domain} else {}
  {
    assert items[..i + 1] == items[..i] + [items[i]];
  }

  /** `scopes`: one pass over the entries. */
  method Scopes(items: seq<Item>) returns (r: Result<Scope>)
    ensures r == ScopeOfItems(items)
  {
    var included, excluded: set<string> := {}, {};
    for i := 0 to |items|
      invariant included == Named(items[..i], false) && excluded == Named(items[..i], true)
      invariant forall j | 0 <= j < i :: items[j].valid
    {
      NamedSnoc(items, i, false);
      NamedSnoc(items, i, true);
      if !items[i].valid {
        return Err(BadScope);
      }
      if items[i].negated {
        excluded := excluded + {items[i].domain};
      } else {
        included := included + {items[i].domain};
      }
    }
    assert items[..|items|] == items;
    if |included| > MAX_SCOPE || |excluded| > MAX_SCOPE {
      return Err(ScopeTooLong);
    }
    return Ok(Scope(included, excluded));
  }

  // Patterns

  predicate IsGraphic(c: char) { 0x21 <= c as int <= 0x7e }

  predicate PatternValid(pattern: string) {
    var shaped :=
      pattern != "" && |pattern| <= MAX_PATTERN && !StartsWith(pattern, "||*")
      && !(StartsWith(pattern, "/") && EndsWith(pattern, "/") && |pattern| > 1)
      && forall c | c in pattern :: IsGraphic(c) && c !in {'\\', '$', '#'};
    var core := StripPattern(pattern);
    shaped && core != "" && '|' !in core
  }

  function StripPattern(pattern: string): string {
    var core :=
      if StartsWith(pattern, "||") then pattern[2..]
      else if StartsWith(pattern, "|") then pattern[1..]
      else pattern;
    if EndsWith(core, "|") then core[..|core| - 1] else core
  }

  /** The host of a `||host^` or `||host/` pattern. */
  function AnchoredHost(pattern: string): Option<string> {
    if !StartsWith(pattern, "||") then None else
      var rest := pattern[2..];
      var caret, slash := IndexOf(rest, '^'), IndexOf(rest, '/');
      var end := if caret < slash then caret else slash;
      if end == |rest| || !HostValid(rest[..end]) then None else Some(Lower(rest[..end]))
  }

  // Modifiers

  function Resource(value: string): Option<Kind> {
    match value
    case "subdocument" => Some(SubFrame)
    case "script" => Some(Script)
    case "image" => Some(Image)
    case "stylesheet" => Some(Stylesheet)
    case "object" => Some(Object)
    case "xmlhttprequest" => Some(XmlHttpRequest)
    case "xhr" => Some(XmlHttpRequest)
    case "ping" => Some(Ping)
    case "media" => Some(Media)
    case "font" => Some(Font)
    case "websocket" => Some(WebSocket)
    case "other" => Some(Other)
    case _ => None
  }

  function DomainScope(value: string): Result<Scope> {
    if value == "" then Err(EmptyDomainRestriction) else ScopesOf(value, '|')
  }

  /** What one modifier asks for. */
  datatype Meaning =
    | PartyIs(party: Party)
    | MatchCase
    | Document
    | Domains(scope: Result<Scope>)
    | TypeIs(negated: bool, kind: Kind)
    | Unsupported

  /** A modifier: its name up to "=" and what it asks for. */
  datatype Modifier = Modifier(key: string, meaning: Meaning)

  function MeaningOf(exception: bool, option: string): Meaning {
    if option in ["third-party", "3p", "~first-party", "~1p"] then PartyIs(ThirdParty)
    else if option in ["~third-party", "~3p", "first-party", "1p"] then PartyIs(FirstParty)
    else if option == "match-case" then MatchCase
    else if option == "document" && exception then Document
    else if StartsWith(option, "domain=") then Domains(DomainScope(option[7..]))
    else
      match Resource(TrimStartChar(option, '~'))
      case None => Unsupported
      case Some(kind) => TypeIs(StartsWith(option, "~"), kind)
  }

  function ModifierOf(exception: bool, option: string): Modifier {
    Modifier(option[..IndexOf(option, '=')], MeaningOf(exception, option))
  }

  function ModifiersOf(exception: bool, options: seq<string>): (r: seq<Modifier>)
    ensures |r| == |options|
  {
    seq(|options|, i requires 0 <= i < |options| => ModifierOf(exception, options[i]))
  }

  datatype Filter = Filter(
    party: Option<Party>,
    caseSensitive: bool,
    initiators: set<string>,
    excludedInitiators: set<string>,
    positive: set<Kind>,
    negative: set<Kind>,
    document: bool,
    seen: set<string>)

  const NO_MODIFIERS := Filter(None, false, {}, {}, {}, {}, false, {})

  /** The effect of one modifier on what the earlier ones left. */
  function Step(before: Filter, m: Modifier): Result<Filter> {
    if m.key in before.seen then Err(DuplicateModifier) else
      var st := before.(seen := before.seen + {m.key});
      match m.meaning
      case PartyIs(party) =>
        if st.party.Some? then Err(ConflictingParty) else Ok(st.(party := Some(party)))
      case MatchCase => Ok(st.(caseSensitive := true))
      case Document => Ok(st.(document := true))
      case Domains(domains) =>
        (match domains
         case Err(reason) => Err(reason)
         case Ok(scope) => Ok(st.(initiators := scope.yes, excludedInitiators := scope.no)))
      case TypeIs(negated, kind) =>
        if negated then Ok(st.(negative := st.negative + {kind})) else Ok(st.(positive := st.positive + {kind}))
      case Unsupported => Err(UnsupportedModifier)
  }

  /** All modifiers in turn; the first bad one decides the error. */
  function Combine(modifiers: seq<Modifier>): Result<Filter> {
    if modifiers == [] then Ok(NO_MODIFIERS) else
      match Combine(modifiers[..|modifiers| - 1])
      case Err(reason) => Err(reason)
      case Ok(st) => Step(st, modifiers[|modifiers| - 1])
  }

  function NonEmpty(parts: seq<string>): seq<string> {
    if parts == [] then []
    else if parts[0] == "" then NonEmpty(parts[1..])
    else [parts[0]] + NonEmpty(parts[1..])
  }

  predicate Keeps(st: Filter, kind: Kind) {
    (st.positive == {} || kind in st.positive) && kind !in st.negative
  }

  function KindsFrom(st: Filter, kinds: seq<Kind>): (r: seq<Kind>)
    ensures forall k :: k in r <==> k in kinds && Keeps(st, k)
  {
    if kinds == [] then []
    else if Keeps(st, kinds[0]) then [kinds[0]] + KindsFrom(st, kinds[1..])
    else KindsFrom(st, kinds[1..])
  }

  function Kinds(st: Filter): seq<Kind> {
    KindsFrom(st, if st.positive == {} then RESOURCE_TYPES else SORTED_TYPES)
  }

  function ConditionOf(pattern: string, st: Filter, kinds: seq<Kind>): Condition {
    Condition(Some(pattern), {}, kinds, st.party, st.initiators, st.excludedInitiators, st.caseSensitive)
  }

  function RulesOf(pattern: string, exception: bool, st: Filter): Result<seq<Rule>> {
    if Kinds(st) == [] then Err(NoResourceType) else
      Ok((if st.document then [FrameRule(pattern, st)] else [])
         + (if !st.document || st.positive != {} || st.negative != {} then [PlainRule(pattern, exception, st)] else []))
  }

  function FrameRule(pattern: string, st: Filter): Rule {
    Rule(2, AllowAllRequests, ConditionOf(pattern, st, FRAME_TYPES))
  }

  function PlainRule(pattern: string, exception: bool, st: Filter): Rule {
    Rule(if exception then 2 else 1, if exception then Allow else Block, ConditionOf(pattern, st, Kinds(st)))
  }

  lemma RulesShape(pattern: string, exception: bool, st: Filter, rules: seq<Rule>)
    requires RulesOf(pattern, exception, st) == Ok(rules)
    ensures rules == (if st.document then [FrameRule(pattern, st)] else [])
                     + (if !st.document || st.positive != {} || st.negative != {}
                        then [PlainRule(pattern, exception, st)] else [])
  {
  }

  /** A filter line cut into its pattern and its modifiers. */
  function Body(raw: string): string { StripPrefix(raw, "@@") }
  predicate IsException(raw: string) { StartsWith(raw, "@@") }
  function Pattern(raw: string): string {
    match SplitOnce(Body(raw), "$") case Some(p) => p.0 case None => Body(raw)
  }
  function OptionText(raw: string): string {
    match SplitOnce(Body(raw), "$") case Some(p) => p.1 case None => ""
  }

  /** `network` as a function of the line. */
  function Network(raw: string): Result<seq<Rule>> {
    Translate(Pattern(raw), IsException(raw), LineModifiers(raw))
  }

  function Options(raw: string): seq<string> { NonEmpty(Split(OptionText(raw), ',')) }

  function LineModifiers(raw: string): seq<Modifier> { ModifiersOf(IsException(raw), Options(raw)) }

  function Translate(pattern: string, exception: bool, modifiers: seq<Modifier>): Result<seq<Rule>> {
    if !PatternValid(pattern) then Err(UnsupportedPattern) else
      match Combine(modifiers)
      case Err(reason) => Err(reason)
      case Ok(st) => RulesOf(pattern, exception, st)
  }

  lemma {:induction false} PrefixError(modifiers: seq<Modifier>, n: nat)
    requires n <= |modifiers| && Combine(modifiers[..n]).Err?
    ensures Combine(modifiers) == Combine(modifiers[..n])
    decreases |modifiers|
  {
    if n < |modifiers| {
      var front := modifiers[..|modifiers| - 1];
      assert front[..n] == modifiers[..n];
      PrefixError(front, n);
    } else {
      assert modifiers[..n] == modifiers;
    }
  }

  /** The loop of `network`: modifiers are taken one at a time, the first bad one ends it. */
  method ParseModifiers(modifiers: seq<Modifier>) returns (r: Result<Filter>)
    ensures r == Combine(modifiers)
  {
    var st := NO_MODIFIERS;
    for i := 0 to |modifiers|
      invariant Combine(modifiers[..i]) == Ok(st)
    {
      assert modifiers[..i + 1][..i] == modifiers[..i];
      match Step(st, modifiers[i]) {
        case Err(reason) =>
          PrefixError(modifiers, i + 1);
          return Err(reason);
        case Ok(next) => st := next;
      }
    }
    assert modifiers[..|modifiers|] == modifiers;
    return Ok(st);
  }
}
