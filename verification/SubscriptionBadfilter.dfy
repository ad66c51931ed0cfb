/** A `badfilter` line cancels its target in every list, wherever and in whatever order the
    modifiers are written, exactly when the target has no hiding modifier and the line can be read. */
module SubscriptionBadfilter {
  import opened Text
  import opened Hosts
  import opened Dnr
  import opened NetworkFilter
  import opened NetworkMeaning
  import opened SubscriptionLines
  import opened SubscriptionCompiler

  // Supported modifiers contain no "$"

  lemma ScopeHasNoDollar(value: string)
    requires DomainScope(value).Ok?
    ensures '$' !in value
  {
    if '$' in value {
      CharsOfParts(value, '|', '$');
      var part :| part in Split(value, '|') && '$' in part;
      var i :| 0 <= i < |Split(value, '|')| && Split(value, '|')[i] == part;
      var item := ItemsOf(value, '|')[i];
      assert item == ItemOf(part) && item in ItemsOf(value, '|');
      HostChars(StripPrefix(part, "~"));
      DollarSurvivesStrip(part);
    }
  }

  lemma DollarSurvivesStrip(part: string)
    requires '$' in part
    ensures '$' in StripPrefix(part, "~")
  {
    if StartsWith(part, "~") {
      assert part == part[..1] + part[1..] && part[..1] == "~";
    }
  }

  lemma TildesHaveNoDollar(option: string)
    requires '$' !in TrimStartChar(option, '~')
    ensures '$' !in option
  {
    var r := TrimStartChar(option, '~');
    TrimStartCharIs(option, '~');
    var n := |option| - |r|;
    assert option == option[..n] + option[n..];
    assert forall c | c in option[..n] :: c == '~';
  }

  lemma KindHasNoDollar(value: string)
    requires Resource(value).Some?
    ensures '$' !in value
  {
  }

  lemma PlainHasNoDollar(option: string)
    requires option in ["third-party", "3p", "~first-party", "~1p"] || option in ["~third-party", "~3p", "first-party", "1p"]
             || option == "match-case" || option == "document"
    ensures '$' !in option
  {
  }

  lemma SupportedHasNoDollar(exception: bool, option: string)
    requires Supported(ModifierOf(exception, option))
    ensures '$' !in option
  {
    var meaning := MeaningOf(exception, option);
    match meaning {
      case Domains(_) =>
        ScopeHasNoDollar(option[7..]);
        assert option == "domain=" + option[7..];
      case TypeIs(_, _) =>
        KindHasNoDollar(TrimStartChar(option, '~'));
        TildesHaveNoDollar(option);
      case Unsupported =>
      case _ => PlainHasNoDollar(option);
    }
  }

  // Cutting a line and putting it together again

  lemma {:induction false} FindChar(s: string, c: char)
    ensures Find(s, [c]) == if c in s then Some(IndexOf(s, c)) else None
  {
    if s != [] {
      FindChar(s[1..], c);
      assert s[..1] == [s[0]];
      assert StartsWith(s, [c]) <==> s[0] == c;
      assert s == [s[0]] + s[1..];
    }
  }

  lemma CutAtDollar(p: string, options: string)
    requires '$' !in p
    ensures SplitOnce(p + "$" + options, "$") == Some((p, options))
    ensures SplitOnce(p, "$") == None
  {
    SplitOnceAt(p, "$", options);
    FindChar(p, '$');
  }

  function Mark(exception: bool): string { if exception then "@@" else "" }

  lemma MarkedBody(exception: bool, body: string)
    requires exception || !StartsWith(body, "@@")
    ensures IsException(Mark(exception) + body) == exception && Body(Mark(exception) + body) == body
  {
    var line := Mark(exception) + body;
    if exception { assert line[..2] == "@@" && line[2..] == body; }
  }

  lemma BodyMarked(raw: string)
    ensures raw == Mark(IsException(raw)) + Body(raw)
    ensures !IsException(raw) ==> !StartsWith(Body(raw), "@@")
  {
    if IsException(raw) { assert raw == raw[..2] + raw[2..]; }
  }

  lemma OptionsNeedDollar(raw: string, option: string)
    requires option in AllOptions(raw) && option != ""
    ensures SplitOnce(Body(raw), "$").Some?
  {
    assert IndexOf("", ',') == 0;
    assert Split("", ',') == [""];
  }

  lemma BodyParts(body: string)
    requires SplitOnce(body, "$").Some?
    ensures var cut := SplitOnce(body, "$").value;
            '$' !in cut.0 && body == cut.0 + "$" + cut.1
  {
    FindChar(body, '$');
    IndexOfBounds(body, '$');
    SplitOnceJoins(body, "$");
  }

  lemma LineParts(raw: string)
    requires SplitOnce(Body(raw), "$").Some?
    ensures '$' !in Pattern(raw)
    ensures raw == Mark(IsException(raw)) + (Pattern(raw) + "$" + OptionText(raw))
    ensures !IsException(raw) ==> !StartsWith(Pattern(raw) + "$" + OptionText(raw), "@@")
    ensures raw[..IndexOf(raw, '$')] == Mark(IsException(raw)) + Pattern(raw)
  {
    BodyMarked(raw);
    BodyParts(Body(raw));
    HeadBeforeDollar(raw, Mark(IsException(raw)), Pattern(raw), OptionText(raw));
  }

  lemma HeadBeforeDollar(raw: string, mark: string, p: string, options: string)
    requires raw == mark + (p + "$" + options) && '$' !in p && '$' !in mark
    ensures raw[..IndexOf(raw, '$')] == mark + p
  {
    var head := mark + p;
    assert raw == head + "$" + options;
    assert raw[..|head|] == head && raw[|head|] == '$';
    IndexOfIs(raw, '$', |head|);
  }

  lemma ReadBack(exception: bool, p: string, options: string, former: string)
    requires '$' !in p && (exception || !StartsWith(p + "$" + former, "@@"))
    ensures var line := Mark(exception) + (p + "$" + options);
            IsException(line) == exception && Pattern(line) == p && OptionText(line) == options
    ensures var bare := Mark(exception) + p;
            IsException(bare) == exception && Pattern(bare) == p && OptionText(bare) == ""
  {
    CutAtDollar(p, options);
    if !exception {
      NotMarked(p, options, former);
    }
    MarkedBody(exception, p + "$" + options);
    MarkedBody(exception, p);
  }

  lemma NotMarked(p: string, options: string, former: string)
    requires !StartsWith(p + "$" + former, "@@")
    ensures !StartsWith(p + "$" + options, "@@") && !StartsWith(p, "@@")
  {
    var a, b := p + "$" + former, p + "$" + options;
    if |p| >= 2 {
      assert a[..2] == p[..2] == b[..2];
    } else if |b| >= 2 {
      assert b[..2][|p|] == '$';
    }
  }

  /** Dropping one modifier changes no other count. */
  lemma {:induction false} WithoutCount(options: seq<string>, dropped: string, o: string)
    ensures multiset(NonEmpty(Without(options, [dropped])))[o]
            == if o == dropped then 0 else multiset(NonEmpty(options))[o]
  {
    if options != [] {
      var first, kept := options[0], Without(options[1..], [dropped]);
      WithoutCount(options[1..], dropped, o);
      assert options == [first] + options[1..];
      CountCons(first, options[1..], o);
      CountCons(first, kept, o);
    }
  }

  lemma CountCons(x: string, options: seq<string>, o: string)
    ensures multiset(NonEmpty([x] + options))[o] == multiset(NonEmpty(options))[o] + if x == o && x != "" then 1 else 0
  {
    assert ([x] + options)[1..] == options;
    var rest := NonEmpty(options);
    if x != "" { assert multiset([x] + rest) == multiset{x} + multiset(rest); }
  }

  lemma WithoutParts(options: seq<string>, dropped: string)
    ensures multiset(NonEmpty(Without(options, [dropped]))) == multiset(NonEmpty(options))[dropped := 0]
  {
    var a, b := multiset(NonEmpty(Without(options, [dropped]))), multiset(NonEmpty(options))[dropped := 0];
    forall o ensures a[o] == b[o] { WithoutCount(options, dropped, o); }
  }

  lemma JoinedOptions(raw: string, rest: seq<string>, dropped: seq<string>)
    requires rest == Without(AllOptions(raw), dropped)
    ensures NonEmpty(Split(Join(rest, ','), ',')) == NonEmpty(rest)
    ensures Join(rest, ',') == "" ==> NonEmpty(rest) == []
  {
    forall part | part in rest ensures ',' !in part { PartOf(OptionText(raw), ',', part); }
    if rest != [] { SplitJoin(rest, ','); }
    assert Split("", ',') == [""];
    assert NonEmpty([""]) == [];
  }

  lemma {:induction false} JoinHasNoDollar(parts: seq<string>)
    requires forall p | p in parts :: '$' !in p
    ensures '$' !in Join(parts, ',')
  {
    if |parts| > 1 { JoinHasNoDollar(parts[1..]); }
  }

  lemma {:induction false} NonEmptyIn(options: seq<string>, o: string)
    requires o in options && o != ""
    ensures o in NonEmpty(options)
  {
    if options[0] != o { NonEmptyIn(options[1..], o); }
  }

  /** The other modifiers of a `badfilter` line, joined again and without "$" at the end. */
  function KeptText(raw: string): string { TrimEndChar(JoinedText(raw), '$') }

  function JoinedText(raw: string): string { Join(Without(AllOptions(raw), ["badfilter"]), ',') }

  lemma TrimUnit(s: string, c: char)
    requires s != "" && s[|s| - 1] == c
    ensures TrimEndChar(s, c) == TrimEndChar(s[..|s| - 1], c)
  {
  }

  /** Trimming the end of two texts. */
  lemma {:induction false} TrimEndConcat(a: string, b: string, c: char)
    ensures TrimEndChar(a + b, c) == if TrimEndChar(b, c) == "" then TrimEndChar(a, c) else a + TrimEndChar(b, c)
    decreases |b|
  {
    if b == "" {
      assert a + b == a;
    } else if b[|b| - 1] == c {
      var front := b[..|b| - 1];
      assert (a + b)[..|a + b| - 1] == a + front;
      TrimUnit(a + b, c);
      TrimUnit(b, c);
      TrimEndConcat(a, front, c);
    }
  }

  lemma NothingTrimmed(s: string, c: char)
    requires c !in s
    ensures TrimEndChar(s, c) == s
  {
    TrimEndCharIs(s, c);
  }

  lemma TrimmedText(head: string, joined: string)
    requires '$' !in head
    ensures var kept := TrimEndChar(joined, '$');
            TrimEndChar(head + "$" + joined, '$') == if kept == "" then head else head + "$" + kept
  {
    NothingTrimmed(head, '$');
    assert (head + "$")[..|head|] == head;
    TrimUnit(head + "$", '$');
    TrimEndConcat(head + "$", joined, '$');
  }

  lemma Regrouped(a: string, b: string, c: string, d: string)
    ensures a + b + c + d == a + (b + c + d)
  {
  }

  lemma MarkedClean(exception: bool, p: string)
    requires '$' !in p
    ensures '$' !in Mark(exception) + p
  {
  }

  lemma TrimmedTarget(exception: bool, p: string, joined: string)
    requires '$' !in p
    ensures var head, kept := Mark(exception) + p, TrimEndChar(joined, '$');
            TrimEndChar(head + "$" + joined, '$') == if kept == "" then head else Mark(exception) + (p + "$" + kept)
  {
    MarkedClean(exception, p);
    TrimmedText(Mark(exception) + p, joined);
    Regrouped(Mark(exception), p, "$", TrimEndChar(joined, '$'));
  }

  /** What is left of a `badfilter` line reads as the same exception mark and pattern, with the kept
      text as its modifiers. */
  lemma TargetRead(raw: string)
    requires "badfilter" in AllOptions(raw)
    ensures var t := BadfilterTarget(raw);
            IsException(t) == IsException(raw) && Pattern(t) == Pattern(raw) && OptionText(t) == KeptText(raw)
  {
    assert |"badfilter"| == 9;
    OptionsNeedDollar(raw, "badfilter");
    LineParts(raw);
    ReadBack(IsException(raw), Pattern(raw), KeptText(raw), OptionText(raw));
    TrimmedTarget(IsException(raw), Pattern(raw), JoinedText(raw));
  }

  /** With no "$" to trim these are the other modifiers. */
  lemma KeptOptions(raw: string)
    requires KeptText(raw) == JoinedText(raw)
    ensures multiset(NonEmpty(Split(KeptText(raw), ','))) == multiset(Options(raw))["badfilter" := 0]
  {
    var rest := Without(AllOptions(raw), ["badfilter"]);
    JoinedOptions(raw, rest, ["badfilter"]);
    WithoutParts(AllOptions(raw), "badfilter");
  }

  lemma OptionsHaveNoDollar(raw: string)
    requires forall o | o in Options(raw) && o != "badfilter" :: '$' !in o
    ensures '$' !in JoinedText(raw)
  {
    var rest := Without(AllOptions(raw), ["badfilter"]);
    forall o | o in rest ensures '$' !in o {
      if o != "" { NonEmptyIn(AllOptions(raw), o); }
    }
    JoinHasNoDollar(rest);
  }

  /** What is left of a `badfilter` line reads as the same exception mark, pattern and other
      modifiers, when these hold no "$". */
  lemma TargetOf(raw: string)
    requires "badfilter" in AllOptions(raw)
    requires forall o | o in Options(raw) && o != "badfilter" :: '$' !in o
    ensures var t := BadfilterTarget(raw);
            && IsException(t) == IsException(raw) && Pattern(t) == Pattern(raw)
            && multiset(Options(t)) == multiset(Options(raw))["badfilter" := 0]
  {
    TargetRead(raw);
    OptionsHaveNoDollar(raw);
    NothingTrimmed(JoinedText(raw), '$');
    KeptOptions(raw);
  }

  lemma {:induction false} MapBag<A, B>(a: seq<A>, b: seq<A>, f: A -> B)
    requires multiset(a) == multiset(b)
    ensures multiset(MapSeq(a, f)) == multiset(MapSeq(b, f))
    decreases |a|
  {
    if a == [] {
      assert |multiset(b)| == 0;
      assert b == [];
    } else {
      var x := a[0];
      assert x in multiset(b);
      var j :| 0 <= j < |b| && b[j] == x;
      var rest := b[..j] + b[j + 1..];
      assert a == [x] + a[1..];
      assert b == b[..j] + [x] + b[j + 1..];
      assert multiset(a[1..]) == multiset(a) - multiset{x} == multiset(b) - multiset{x} == multiset(rest);
      MapBag(a[1..], rest, f);
      MapSeqConcat([x], a[1..], f);
      MapSeqConcat(b[..j] + [x], b[j + 1..], f);
      MapSeqConcat(b[..j], [x], f);
      MapSeqConcat(b[..j], b[j + 1..], f);
    }
  }

  /** The line is this filter with `badfilter` among its modifiers, in any order. */
  ghost predicate Names(bad: string, target: string) {
    && "badfilter" in AllOptions(bad)
    && IsException(bad) == IsException(target) && Pattern(bad) == Pattern(target)
    && multiset(Options(bad)) == multiset(Options(target)) + multiset{"badfilter"}
  }

  /** A badfilter that names a line which compiles as it stands cancels exactly its rules. */
  lemma PlainTargetCancelled(target: string, bad: string)
    requires Network(target).Ok? && Names(bad, target)
    ensures Badfilter(bad).cancelled == RuleSet(Network(target).value)
  {
    SupportedOptions(target);
    NoDollarInOptions(target, bad);
    TargetOf(bad);
    BagWithout(multiset(Options(target)), multiset(Options(bad)), "badfilter");
    SameTranslation(target, BadfilterTarget(bad));
    BadfilterEffect(bad, Network(target).value);
  }

  lemma BadfilterEffect(bad: string, rules: seq<Rule>)
    requires Network(BadfilterTarget(bad)) == Ok(rules)
    ensures Badfilter(bad).cancelled == RuleSet(rules)
  {
  }

  lemma NoDollarInOptions(target: string, bad: string)
    requires forall o | o in Options(target) :: Supported(ModifierOf(IsException(target), o))
    requires multiset(Options(bad)) == multiset(Options(target)) + multiset{"badfilter"}
    ensures forall o | o in Options(bad) && o != "badfilter" :: '$' !in o
  {
    forall o | o in Options(bad) && o != "badfilter" ensures '$' !in o {
      assert o in multiset(Options(bad));
      assert o in multiset(Options(target));
      SupportedHasNoDollar(IsException(target), o);
    }
  }

  lemma BagWithout(bag: multiset<string>, more: multiset<string>, x: string)
    requires more == bag + multiset{x} && x !in bag
    ensures more[x := 0] == bag
  {
  }

  lemma SupportedOptions(raw: string)
    requires Network(raw).Ok?
    ensures forall o | o in Options(raw) :: Supported(ModifierOf(IsException(raw), o)) && !Odd(o)
    ensures "badfilter" !in Options(raw)
  {
    var exception := IsException(raw);
    LineSpelled(exception, Options(raw));
    CombineAsBag(LineModifiers(raw));
    assert Odd("badfilter");
    forall o | o in Options(raw) ensures Supported(ModifierOf(exception, o)) && !Odd(o) {
      var i :| 0 <= i < |Options(raw)| && Options(raw)[i] == o;
      assert LineModifiers(raw)[i] == ModifierOf(exception, o);
      assert LineModifiers(raw)[i] in multiset(LineModifiers(raw));
      if Odd(o) { OddUnsupported(exception, o); }
    }
  }

  lemma FirstChar(s: string, prefix: string)
    requires prefix != "" && s != "" && s[0] != prefix[0]
    ensures s != prefix && !StartsWith(s, prefix)
  {
    assert |prefix| <= |s| ==> s[..|prefix|][0] == s[0];
  }

  predicate Odd(option: string) { option != "" && option[0] in {'b', 'e', 'g'} }

  lemma OddIsNoFlag(option: string)
    requires Odd(option)
    ensures option !in ["third-party", "3p", "~first-party", "~1p"]
    ensures option !in ["~third-party", "~3p", "first-party", "1p"]
    ensures option != "match-case" && option != "document" && !StartsWith(option, "domain=")
  {
    FirstChar(option, "domain=");
  }

  lemma OddIsNoKind(option: string)
    requires Odd(option)
    ensures Resource(option) == None
  {
  }

  /** No modifier that begins like `badfilter`, `elemhide` or `generichide` is supported. */
  lemma OddUnsupported(exception: bool, option: string)
    requires Odd(option)
    ensures !Supported(ModifierOf(exception, option))
  {
    OddIsNoFlag(option);
    OddIsNoKind(option);
    assert TrimStartChar(option, '~') == option;
  }

  lemma SameTranslation(a: string, b: string)
    requires IsException(a) == IsException(b) && Pattern(a) == Pattern(b)
    requires multiset(Options(a)) == multiset(Options(b)) && Network(a).Ok?
    ensures Network(b) == Network(a)
  {
    var exception := IsException(a);
    var f := (o: string) => ModifierOf(exception, o);
    MapBag(Options(a), Options(b), f);
    assert LineModifiers(a) == MapSeq(Options(a), f) && LineModifiers(b) == MapSeq(Options(b), f);
    LineSpelled(exception, Options(a));
    ModifierOrderIrrelevant(Pattern(a), exception, LineModifiers(a), LineModifiers(b));
  }

  lemma SameRefusal(a: string, b: string)
    requires IsException(a) == IsException(b) && Pattern(a) == Pattern(b)
    requires multiset(Options(a)) == multiset(Options(b)) && Network(a).Err?
    ensures Network(b).Err?
  {
    if Network(b).Ok? { SameTranslation(b, a); }
  }

  ghost function RulesNamed(line: string): set<Rule> {
    match Network(line) case Ok(rules) => RuleSet(rules) case Err(_) => {}
  }

  lemma TargetRulesNamed(bad: string)
    ensures Badfilter(bad).cancelled == RulesNamed(BadfilterTarget(bad))
  {
  }

  lemma SameNamed(a: string, b: string)
    requires IsException(a) == IsException(b) && Pattern(a) == Pattern(b) && multiset(Options(a)) == multiset(Options(b))
    ensures RulesNamed(a) == RulesNamed(b)
  {
    if Network(a).Ok? { SameTranslation(a, b); } else { SameRefusal(a, b); }
  }

  /** What any badfilter line cancels: the rules, if any, of a line with its mark, its pattern and, in
      any order, its kept modifiers. */
  lemma BadfilterNames(bad: string, line: string)
    requires FormOf(bad) == BadfilterForm && "badfilter" in AllOptions(bad)
    requires IsException(line) == IsException(bad) && Pattern(line) == Pattern(bad)
    requires multiset(Options(line)) == multiset(NonEmpty(Split(KeptText(bad), ',')))
    ensures LineEffect(bad).cancelled == RulesNamed(line)
  {
    TargetRead(bad);
    SameNamed(BadfilterTarget(bad), line);
    TargetRulesNamed(bad);
    BadfilterArm(bad, FormOf(bad));
  }

  /** So the badfilter of a line that does not compile cancels nothing, unless its modifiers end in
      "$". */
  lemma RefusedTarget(target: string, bad: string)
    requires FormOf(bad) == BadfilterForm && Names(bad, target)
    requires Network(target).Err? && "badfilter" !in Options(target)
    requires JoinedText(bad) == "" || JoinedText(bad)[|JoinedText(bad)| - 1] != '$'
    ensures LineEffect(bad).cancelled == {}
  {
    NoEndTrimmed(JoinedText(bad), '$');
    RefusedKept(target, bad);
    BadfilterNames(bad, target);
  }

  lemma RefusedKept(target: string, bad: string)
    requires Names(bad, target) && "badfilter" !in Options(target) && TrimEndChar(JoinedText(bad), '$') == JoinedText(bad)
    ensures multiset(Options(target)) == multiset(NonEmpty(Split(KeptText(bad), ',')))
  {
    KeptOptions(bad);
    TargetOptions(target, bad);
  }

  lemma NoEndTrimmed(s: string, c: char)
    requires s == "" || s[|s| - 1] != c
    ensures TrimEndChar(s, c) == s
  {
  }

  lemma TargetOptions(target: string, bad: string)
    requires Names(bad, target) && "badfilter" !in Options(target)
    ensures multiset(Options(bad))["badfilter" := 0] == multiset(Options(target))
  {
    BagWithout(multiset(Options(target)), multiset(Options(bad)), "badfilter");
  }

  // Exceptions that are translated without their hiding modifiers

  const HIDING: seq<string> := ["generichide", "elemhide"]

  /** The line reaches the network filters and compiles, after its hiding modifiers are dropped. */
  ghost predicate Translates(target: string, line: string, rules: seq<Rule>) {
    FormOf(target) == FilterForm && Translated(target) == Some(line) && Network(line) == Ok(rules)
  }

  lemma {:induction false} NonEmptyWithout(options: seq<string>, dropped: seq<string>, o: string)
    requires o in NonEmpty(options) && o !in dropped
    ensures o in NonEmpty(Without(options, dropped))
  {
    NonEmptyOf(options, o);
    NonEmptyIn(Without(options, dropped), o);
  }

  lemma {:induction false} NonEmptyOf(options: seq<string>, o: string)
    requires o in NonEmpty(options)
    ensures o in options && o != ""
  {
    if options[0] == "" || options[0] != o { NonEmptyOf(options[1..], o); }
  }

  lemma HidingTranslated(target: string, line: string)
    requires IsException(target) && HidesGenerically(AllOptions(target)) && Translated(target) == Some(line)
    ensures line == "@@" + Pattern(target) + "$" + Join(Without(AllOptions(target), HIDING), ',')
  {
  }

  lemma HidingNeedsDollar(target: string)
    requires HidesGenerically(AllOptions(target))
    ensures SplitOnce(Body(target), "$").Some?
  {
    var o := HidingOption(AllOptions(target));
    OptionsNeedDollar(target, o);
  }

  lemma HidingReadBack(line: string, pattern: string, joined: string)
    requires line == "@@" + pattern + "$" + joined && '$' !in pattern
    ensures IsException(line) && Pattern(line) == pattern && OptionText(line) == joined
  {
    ReadBack(true, pattern, joined, joined);
    assert line == "@@" + (pattern + "$" + joined);
  }

  /** The translation keeps the mark, the pattern and the other modifiers. */
  lemma HidingTranslation(target: string, line: string)
    requires IsException(target) && HidesGenerically(AllOptions(target)) && Translated(target) == Some(line)
    ensures IsException(line) && Pattern(line) == Pattern(target)
    ensures Options(line) == NonEmpty(Without(AllOptions(target), HIDING))
  {
    var rest := Without(AllOptions(target), HIDING);
    HidingNeedsDollar(target);
    LineParts(target);
    HidingTranslated(target, line);
    HidingReadBack(line, Pattern(target), Join(rest, ','));
    JoinedOptions(target, rest, HIDING);
  }

  lemma HidingIsOdd()
    ensures Odd("generichide") && Odd("elemhide") && '$' !in "generichide" && '$' !in "elemhide"
  {
  }

  lemma HidingRefused(line: string)
    requires HidesGenerically(Options(line))
    ensures Network(line).Err?
  {
    HidingIsOdd();
    if Network(line).Ok? { SupportedOptions(line); }
  }

  lemma NoDollarBesideHiding(target: string, line: string, bad: string)
    requires Options(line) == NonEmpty(Without(AllOptions(target), HIDING)) && IsException(line) && Network(line).Ok?
    requires Names(bad, target)
    ensures forall o | o in Options(bad) && o != "badfilter" :: '$' !in o
  {
    SupportedOptions(line);
    HidingIsOdd();
    forall o | o in Options(bad) && o != "badfilter" ensures '$' !in o {
      NamedOption(target, bad, o);
      if o !in HIDING {
        NonEmptyWithout(AllOptions(target), HIDING, o);
        SupportedHasNoDollar(true, o);
      }
    }
  }

  lemma NamedOption(target: string, bad: string, o: string)
    requires Names(bad, target) && o in Options(bad) && o != "badfilter"
    ensures o in Options(target)
  {
    assert o in multiset(Options(bad));
    assert o in multiset(Options(target));
  }

  /** A badfilter that still has a hiding modifier names nothing the compiler can translate. */
  lemma HidingCancelsNothing(target: string, line: string, rules: seq<Rule>, bad: string)
    requires IsException(target) && HidesGenerically(AllOptions(target))
    requires Translated(target) == Some(line) && Network(line) == Ok(rules) && Names(bad, target)
    ensures Badfilter(bad).cancelled == {}
  {
    HidingTranslation(target, line);
    NoDollarBesideHiding(target, line, bad);
    TargetOf(bad);
    HidingRemains(target, bad);
    HidingRefused(BadfilterTarget(bad));
    RefusedCancelsNothing(bad);
  }

  lemma RefusedCancelsNothing(bad: string)
    requires Network(BadfilterTarget(bad)).Err?
    ensures Badfilter(bad).cancelled == {}
  {
  }

  lemma HidingOption(options: seq<string>) returns (o: string)
    requires HidesGenerically(options)
    ensures o in options && o in HIDING && o != "" && o != "badfilter"
  {
    assert |"generichide"| == 11 && |"elemhide"| == 8 && |"badfilter"| == 9;
    o := if "generichide" in options then "generichide" else "elemhide";
  }

  lemma HidingRemains(target: string, bad: string)
    requires HidesGenerically(AllOptions(target)) && Names(bad, target)
    requires multiset(Options(BadfilterTarget(bad))) == multiset(Options(bad))["badfilter" := 0]
    ensures HidesGenerically(Options(BadfilterTarget(bad)))
  {
    var o := HidingOption(AllOptions(target));
    NonEmptyIn(AllOptions(target), o);
    assert o in multiset(Options(target));
    assert o in multiset(Options(bad));
    assert o in multiset(Options(BadfilterTarget(bad)));
  }

  lemma PlainTranslation(target: string, line: string, rules: seq<Rule>)
    requires Translated(target) == Some(line) && Network(line) == Ok(rules)
    requires !(IsException(target) && HidesGenerically(AllOptions(target)))
    ensures line == target && !HidesGenerically(AllOptions(target))
  {
    if HidesGenerically(AllOptions(target)) {
      var o := HidingOption(AllOptions(target));
      NonEmptyIn(AllOptions(target), o);
      HidingRefused(target);
    }
  }

  lemma BadfilterMeets(target: string, line: string, rules: seq<Rule>, bad: string)
    requires Translated(target) == Some(line) && Network(line) == Ok(rules) && Names(bad, target)
    ensures Badfilter(bad).cancelled == if HidesGenerically(AllOptions(target)) then {} else RuleSet(rules)
  {
    if IsException(target) && HidesGenerically(AllOptions(target)) {
      HidingCancelsNothing(target, line, rules, bad);
    } else {
      PlainTranslation(target, line, rules);
      PlainTargetCancelled(target, bad);
    }
  }

  lemma TargetRules(target: string, line: string, rules: seq<Rule>)
    requires Translates(target, line, rules)
    ensures LineEffect(target).rules == RuleSet(rules) != {}
  {
    FilterArm(target, FormOf(target));
    FilterRules(target, line, rules);
    TranslationNonempty(line, rules);
  }

  // How the badfilter line itself is read

  lemma PartsOfLine(raw: string, c: char)
    requires c !in raw
    ensures c !in Pattern(raw) && c !in OptionText(raw)
  {
    assert c !in Body(raw);
  }

  lemma {:induction false} PatternStart(raw: string)
    ensures StartsWith(Body(raw), Pattern(raw))
  {
  }

  lemma FilterText(target: string)
    requires FormOf(target) == FilterForm
    ensures '#' !in target && !Skipped(target)
  {
  }

  lemma TargetOption(target: string, part: string)
    requires part in Options(target) && '#' !in target
    ensures '#' !in part
  {
    NonEmptyOf(AllOptions(target), part);
    PartOf(OptionText(target), ',', part);
    PartsOfLine(target, '#');
  }

  lemma NamedWithoutHash(target: string, bad: string, part: string)
    requires Names(bad, target) && '#' !in target && part in Options(bad) && part != "badfilter"
    ensures '#' !in part
  {
    NamedOption(target, bad, part);
    TargetOption(target, part);
  }

  lemma OwnOption()
    ensures '#' !in "badfilter"
  {
  }

  lemma OptionWithoutHash(target: string, bad: string, part: string)
    requires Names(bad, target) && '#' !in target && part in AllOptions(bad)
    ensures '#' !in part
  {
    OwnOption();
    if part != "" {
      NonEmptyIn(AllOptions(bad), part);
      if part != "badfilter" { NamedWithoutHash(target, bad, part); }
    }
  }

  lemma OptionsWithoutHash(target: string, bad: string)
    requires Names(bad, target) && '#' !in target
    ensures '#' !in OptionText(bad)
  {
    if '#' in OptionText(bad) {
      CharsOfParts(OptionText(bad), ',', '#');
      var part :| part in AllOptions(bad) && '#' in part;
      OptionWithoutHash(target, bad, part);
    }
  }

  lemma NoHash(target: string, bad: string)
    requires Names(bad, target) && '#' !in target
    ensures '#' !in bad
  {
    PartsOfLine(target, '#');
    OptionsWithoutHash(target, bad);
    assert |"badfilter"| == 9;
    OptionsNeedDollar(bad, "badfilter");
    LineParts(bad);
  }

  lemma StartsAgree(s: string, start: string)
    requires StartsWith(s, start)
    ensures forall k | 0 <= k < |start| :: s[k] == start[k]
  {
    forall k | 0 <= k < |start| ensures s[k] == start[k] { assert s[..|start|][k] == s[k]; }
  }

  /** What a line begins with, its pattern begins with, when that holds no "$". */
  lemma StartInPattern(p: string, options: string, start: string)
    requires '$' !in start && StartsWith(p + "$" + options, start)
    ensures StartsWith(p, start)
  {
    var s := p + "$" + options;
    assert s[|p|] == '$';
    StartsAgree(s, start);
    assert forall k | 0 <= k < |start| :: start[k] != '$';
    assert s[..|start|] == p[..|start|];
  }

  lemma StartGrows(s: string, p: string, start: string)
    requires StartsWith(s, p) && StartsWith(p, start)
    ensures StartsWith(s, start)
  {
    assert s[..|start|] == s[..|p|][..|start|];
  }

  lemma PlainStart(target: string, bad: string, start: string)
    requires Names(bad, target) && !IsException(target) && '$' !in start && !StartsWith(target, start)
    ensures !StartsWith(bad, start)
  {
    assert |"badfilter"| == 9;
    OptionsNeedDollar(bad, "badfilter");
    LineParts(bad);
    assert bad == Pattern(bad) + "$" + OptionText(bad);
    PatternStart(target);
    if StartsWith(bad, start) {
      StartInPattern(Pattern(bad), OptionText(bad), start);
      StartGrows(target, Pattern(target), start);
    }
  }

  lemma NonEmptyLine(bad: string, option: string)
    requires option in AllOptions(bad) && option != ""
    ensures bad != ""
  {
    OptionsNeedDollar(bad, option);
  }

  lemma MarkedNotSkipped(bad: string)
    requires IsException(bad)
    ensures !Skipped(bad)
  {
    assert bad[0] == '@';
  }

  lemma Starts(target: string)
    requires !Skipped(target)
    ensures !StartsWith(target, "!") && !StartsWith(target, "[Adblock") && '$' !in "!" && '$' !in "[Adblock"
  {
  }

  lemma PlainNotSkipped(target: string, bad: string)
    requires Names(bad, target) && !IsException(bad) && !Skipped(target)
    ensures bad != "" && !StartsWith(bad, "!") && !StartsWith(bad, "[Adblock")
  {
    assert |"badfilter"| == 9;
    NonEmptyLine(bad, "badfilter");
    Starts(target);
    PlainStart(target, bad, "!");
    PlainStart(target, bad, "[Adblock");
  }

  lemma NotSkipped(target: string, bad: string)
    requires Names(bad, target) && !Skipped(target)
    ensures !Skipped(bad)
  {
    if IsException(bad) {
      MarkedNotSkipped(bad);
    } else {
      PlainNotSkipped(target, bad);
    }
  }

  predicate Readable(bad: string) { IsException(bad) || Utf8Len(bad) <= MAX_LINE }

  lemma FormWithoutHash(bad: string)
    requires !Skipped(bad) && '#' !in bad && "badfilter" in AllOptions(bad)
    ensures FormOf(bad) == if Readable(bad) then BadfilterForm else LongForm
  {
    NotContained(bad, "#@#", '#');
    NotContained(bad, "##", '#');
  }

  /** A line that names a filter is read as a badfilter unless it is plain and too long. */
  lemma BadfilterForms(target: string, bad: string)
    requires FormOf(target) == FilterForm && Names(bad, target)
    ensures FormOf(bad) == if Readable(bad) then BadfilterForm else LongForm
  {
    FilterText(target);
    NoHash(target, bad);
    NotSkipped(target, bad);
    FormWithoutHash(bad);
  }

  lemma BadfilterLine(bad: string)
    requires FormOf(bad) == BadfilterForm
    ensures LineEffect(bad).cancelled == Badfilter(bad).cancelled
  {
    BadfilterArm(bad, FormOf(bad));
  }

  lemma LongLine(bad: string)
    requires FormOf(bad) == LongForm
    ensures LineEffect(bad).cancelled == {}
  {
  }

  /** Of a line that compiles, the badfilter with its mark, pattern and modifiers in any order cancels
      exactly the rules if the line has neither `generichide` nor `elemhide` and the badfilter itself
      is an exception or short enough to be read; otherwise it cancels nothing. */
  lemma BadfilterCancels(target: string, line: string, rules: seq<Rule>, bad: string)
    requires Translates(target, line, rules) && Names(bad, target)
    ensures LineEffect(target).rules != {}
    ensures LineEffect(bad).cancelled
            == if !HidesGenerically(AllOptions(target)) && (IsException(bad) || Utf8Len(bad) <= MAX_LINE)
               then LineEffect(target).rules else {}
  {
    TargetRules(target, line, rules);
    BadfilterForms(target, bad);
    if Readable(bad) {
      BadfilterMeets(target, line, rules, bad);
      BadfilterLine(bad);
    } else {
      LongLine(bad);
    }
  }

  /** So nothing of a compiled line without hiding modifiers survives when any list has such a
      badfilter of it, before or after it. */
  lemma CancelledEverywhere(sources: seq<Source>, target: string, line: string, rules: seq<Rule>, bad: string)
    requires target in AllRaws(sources) && bad in AllRaws(sources)
    requires Translates(target, line, rules) && Names(bad, target)
    requires !HidesGenerically(AllOptions(target)) && (IsException(bad) || Utf8Len(bad) <= MAX_LINE)
    ensures LineEffect(target).rules !! Kept(Collect(Effects(sources)))
  {
    BadfilterCancels(target, line, rules, bad);
    CancelledNotKept(AllRaws(sources), LineEffect, bad);
    EffectsOfRaws(sources);
  }

  lemma CancelledNotKept(raws: seq<string>, effect: string -> Effect, bad: string)
    requires bad in raws
    ensures effect(bad).cancelled !! Kept(Collect(MapSeq(raws, effect)))
  {
    var es := MapSeq(raws, effect);
    var i :| 0 <= i < |raws| && raws[i] == bad;
    assert es[i] in es;
    CollectGathers(es);
  }

  /** Rules of one line that no line cancels are kept, whatever the lines contribute. */
  lemma UncancelledKept(raws: seq<string>, effect: string -> Effect, target: string)
    requires target in raws && forall raw | raw in raws :: effect(raw).cancelled !! effect(target).rules
    ensures effect(target).rules <= Kept(Collect(MapSeq(raws, effect)))
  {
    var es := MapSeq(raws, effect);
    var i :| 0 <= i < |raws| && raws[i] == target;
    assert es[i] in es;
    CollectGathers(es);
    forall e | e in es ensures e.cancelled !! effect(target).rules {
      var k :| 0 <= k < |es| && es[k] == e;
      assert raws[k] in raws && e == effect(raws[k]);
    }
  }

  /** The badfilter is not in the way: the filter hides, or the line is plain and too long. */
  predicate Ineffective(target: string, bad: string) {
    HidesGenerically(AllOptions(target)) || (!IsException(bad) && Utf8Len(bad) > MAX_LINE)
  }

  /** And all of a compiled line survives its own badfilters when none of them meets the condition. */
  lemma UncancelledSurvives(sources: seq<Source>, target: string, line: string, rules: seq<Rule>)
    requires target in AllRaws(sources) && Translates(target, line, rules)
    requires forall raw | raw in AllRaws(sources) ::
               (Names(raw, target) && Ineffective(target, raw)) || LineEffect(raw).cancelled !! LineEffect(target).rules
    ensures LineEffect(target).rules != {} && LineEffect(target).rules <= Kept(Collect(Effects(sources)))
  {
    TargetRules(target, line, rules);
    forall raw | raw in AllRaws(sources) ensures LineEffect(raw).cancelled !! LineEffect(target).rules {
      if Names(raw, target) && Ineffective(target, raw) { BadfilterCancels(target, line, rules, raw); }
    }
    UncancelledKept(AllRaws(sources), LineEffect, target);
    EffectsOfRaws(sources);
  }
}
