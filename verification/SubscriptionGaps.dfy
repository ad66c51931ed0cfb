/** Lines for which the subscription compiler's `badfilter` does not do what it is for, and what it
    takes with it elsewhere. */
module SubscriptionGaps {
  import opened Text
  import opened Hosts
  import opened Dnr
  import opened NetworkFilter
  import opened SubscriptionLines
  import opened SubscriptionCompiler
  import opened SubscriptionBadfilter
  import NetworkMeaning

  // A hiding exception keeps its rule

  lemma AnchorChars(host: string)
    requires HostValid(host)
    ensures var p := "||" + host + "^";
            (forall c | c in p :: IsGraphic(c) && c != '\\' && c != '$' && c != '#') && '|' !in host + "^"
  {
    HostChars(host);
    var p := "||" + host + "^";
    assert forall c | c in p :: c in host || c == '|' || c == '^';
  }

  lemma AnchorStart(host: string)
    requires HostValid(host)
    ensures var p := "||" + host + "^";
            p[0] == '|' && !StartsWith(p, "||*") && !StartsWith(p, "/") && StripPattern(p) == host + "^" && |p| <= 256
  {
    var p := "||" + host + "^";
    FirstIsAlnum(host);
    assert p[2] == host[0];
    assert p[..2] == "||" && p[2..] == host + "^";
    assert |p| >= 3 && p[..3][2] == p[2];
    assert (host + "^")[|host|] == '^';
    FirstChar("^", "|");
  }

  lemma HostPatternValid(host: string)
    requires HostValid(host)
    ensures PatternValid("||" + host + "^") && '$' !in "||" + host + "^" && '#' !in "||" + host + "^"
  {
    AnchorChars(host);
    AnchorStart(host);
  }

  lemma FirstIsAlnum(host: string)
    requires HostValid(host)
    ensures IsAlnum(host[0])
  {
    var first := Split(host, '.')[0];
    assert first in Split(host, '.') && first == host[..IndexOf(host, '.')];
    assert ValidLabel(first) && first[0] == host[0];
  }

  lemma OneOption(option: string)
    requires ',' !in option && option != ""
    ensures NonEmpty(Split(option, ',')) == [option]
  {
    assert Join([option], ',') == option;
    SplitJoin([option], ',');
    assert [option][1..] == [] && NonEmpty([]) == [];
  }

  lemma ScriptIsPlain()
    ensures ',' !in "script" && "script" != "" && "script" !in HIDING && "script" != "badfilter"
    ensures !StartsWith("script", "domain=") && "script" !in SubscriptionLines.CONTEXT_OPTIONS
  {
    assert |"script"| == 6;
  }

  lemma ScriptMeans(exception: bool)
    ensures MeaningOf(exception, "script") == TypeIs(false, Script)
  {
    var o := "script";
    assert |o| == 6 && o[0] == 's';
    FirstChar(o, "~");
    assert TrimStartChar(o, '~') == o;
  }

  lemma ScriptCombines(m: Modifier)
    requires m.meaning == TypeIs(false, Script)
    ensures Combine([m]) == Ok(NO_MODIFIERS.(seen := {m.key}, positive := {Script}))
  {
    assert [m][..0] == [];
    assert Combine([]) == Ok(NO_MODIFIERS);
    assert NO_MODIFIERS.seen + {m.key} == {m.key} && NO_MODIFIERS.positive + {Script} == {Script};
  }

  lemma ScriptTranslates(pattern: string, exception: bool, m: Modifier)
    requires PatternValid(pattern) && m.meaning == TypeIs(false, Script)
    ensures Translate(pattern, exception, [m]).Ok?
  {
    ScriptCombines(m);
    var st := NO_MODIFIERS.(seen := {m.key}, positive := {Script});
    NetworkMeaning.AllKinds(Script);
    assert Keeps(st, Script) && Script in Kinds(st);
  }

  lemma ScriptCompiles(line: string)
    requires PatternValid(Pattern(line)) && OptionText(line) == "script"
    ensures Network(line).Ok?
  {
    var m := ModifierOf(IsException(line), "script");
    ScriptIsPlain();
    OneOption("script");
    ScriptMeans(IsException(line));
    assert LineModifiers(line) == [m];
    ScriptTranslates(Pattern(line), IsException(line), m);
  }

  lemma TwoOptions(a: string, b: string)
    requires ',' !in a && ',' !in b && a != "" && b != ""
    ensures Split(a + "," + b, ',') == [a, b] && NonEmpty([a, b]) == [a, b]
  {
    assert [a, b][1..] == [b] && [b][1..] == [] && NonEmpty([]) == [];
    assert Join([a, b], ',') == a + [','] + b;
    SplitJoin([a, b], ',');
  }

  lemma ThreeOptions(a: string, b: string, c: string)
    requires ',' !in a && ',' !in b && ',' !in c && a != "" && b != "" && c != ""
    ensures Split(a + "," + (b + "," + c), ',') == [a, b, c] && NonEmpty([a, b, c]) == [a, b, c]
  {
    TwoOptions(b, c);
    assert [a, b, c][1..] == [b, c];
    assert Join([a, b, c], ',') == a + [','] + Join([b, c], ',');
    assert Join([b, c], ',') == b + [','] + c;
    SplitJoin([a, b, c], ',');
  }

  /** `@@||host^$elemhide,script`, and the same with `badfilter`. */
  function HidingScript(host: string): string { "@@" + (("||" + host + "^") + "$" + ("elemhide" + "," + "script")) }
  function HidingScriptBad(host: string): string {
    "@@" + (("||" + host + "^") + "$" + ("elemhide" + "," + ("script" + "," + "badfilter")))
  }

  lemma HidingOptions()
    ensures Split("elemhide" + "," + "script", ',') == ["elemhide", "script"] == NonEmpty(["elemhide", "script"])
    ensures Split("elemhide" + "," + ("script" + "," + "badfilter"), ',')
            == ["elemhide", "script", "badfilter"] == NonEmpty(["elemhide", "script", "badfilter"])
    ensures Without(["elemhide", "script"], HIDING) == ["script"] && "elemhide" != "badfilter"
  {
    ScriptIsPlain();
    assert |"elemhide"| == 8 && |"badfilter"| == 9;
    TwoOptions("elemhide", "script");
    ThreeOptions("elemhide", "script", "badfilter");
    WithoutCons("elemhide", ["script"]);
    WithoutCons("script", []);
  }

  lemma WithoutCons(o: string, rest: seq<string>)
    ensures Without([o] + rest, HIDING) == (if o in HIDING then [] else [o]) + Without(rest, HIDING)
  {
    assert ([o] + rest)[1..] == rest;
  }

  lemma ExampleParts(pattern: string, options: string)
    requires '$' !in pattern && '#' !in pattern && '#' !in options
    ensures var line := "@@" + (pattern + "$" + options);
            IsException(line) && Pattern(line) == pattern && OptionText(line) == options && '#' !in line
  {
    ReadBack(true, pattern, options, options);
  }

  lemma ExampleText()
    ensures '#' !in "elemhide" + "," + "script" && '#' !in "elemhide" + "," + ("script" + "," + "badfilter")
    ensures "badfilter" !in ["elemhide", "script"]
  {
    assert |"elemhide"| == 8 && |"script"| == 6 && |"badfilter"| == 9;
  }

  lemma HidingTranslates(target: string, rest: seq<string>)
    requires IsException(target) && HidesGenerically(AllOptions(target))
    requires Without(AllOptions(target), HIDING) == rest && HasNetworkAction(rest)
    ensures Translated(target) == Some("@@" + Pattern(target) + "$" + Join(rest, ','))
  {
  }

  lemma ScriptRemains(target: string, pattern: string)
    requires IsException(target) && Pattern(target) == pattern && AllOptions(target) == ["elemhide", "script"]
    ensures Translated(target) == Some("@@" + pattern + "$" + "script")
  {
    HidingOptions();
    ScriptIsPlain();
    assert "elemhide" in AllOptions(target);
    assert "script" in ["script"];
    HidingTranslates(target, ["script"]);
    assert Join(["script"], ',') == "script";
  }

  lemma ExampleTarget(target: string, pattern: string)
    requires IsException(target) && Pattern(target) == pattern && PatternValid(pattern) && '#' !in target && '$' !in pattern
    requires AllOptions(target) == ["elemhide", "script"]
    ensures var line := "@@" + pattern + "$" + "script";
            Network(line).Ok? && Translates(target, line, Network(line).value)
  {
    var line := "@@" + pattern + "$" + "script";
    ExampleText();
    ExceptionForms(target);
    ScriptRemains(target, pattern);
    HidingReadBack(line, pattern, "script");
    ScriptCompiles(line);
  }

  lemma ExampleNames(target: string, bad: string)
    requires IsException(target) == IsException(bad) && Pattern(bad) == Pattern(target)
    requires Options(target) == ["elemhide", "script"]
    requires AllOptions(bad) == ["elemhide", "script", "badfilter"] == Options(bad)
    ensures Names(bad, target)
  {
    assert Options(bad) == Options(target) + ["badfilter"];
    assert "badfilter" in AllOptions(bad);
  }

  lemma ExampleForms(target: string, bad: string)
    requires IsException(target) && '#' !in target && AllOptions(target) == ["elemhide", "script"]
    requires IsException(bad) && '#' !in bad && AllOptions(bad) == ["elemhide", "script", "badfilter"]
    ensures FormOf(target) == FilterForm && FormOf(bad) == BadfilterForm
  {
    ExampleText();
    ExceptionForms(target);
    ExceptionForms(bad);
    assert "badfilter" in AllOptions(bad);
  }

  lemma ExampleGap(target: string, bad: string, pattern: string)
    requires PatternValid(pattern) && '$' !in pattern
    requires IsException(target) && Pattern(target) == pattern && '#' !in target
    requires IsException(bad) && Pattern(bad) == pattern && '#' !in bad
    requires AllOptions(target) == ["elemhide", "script"] == Options(target)
    requires AllOptions(bad) == ["elemhide", "script", "badfilter"] == Options(bad)
    ensures FormOf(target) == FilterForm && FormOf(bad) == BadfilterForm && Names(bad, target)
    ensures LineEffect(target).rules != {} && LineEffect(bad).cancelled == {}
  {
    ExampleForms(target, bad);
    ExampleNames(target, bad);
    ExampleTarget(target, pattern);
    assert "elemhide" in AllOptions(target);
    ExampleCancels(target, "@@" + pattern + "$" + "script", bad);
  }

  lemma ExampleCancels(target: string, line: string, bad: string)
    requires Network(line).Ok? && Translates(target, line, Network(line).value) && Names(bad, target)
    requires FormOf(bad) == BadfilterForm && "elemhide" in AllOptions(target)
    ensures LineEffect(target).rules != {} && LineEffect(bad).cancelled == {}
  {
    BadfilterCancels(target, line, Network(line).value, bad);
  }

  /** The code's one gap: such an exception adds a rule that its own badfilter does not cancel. */
  lemma HidingCounterexample(host: string)
    requires HostValid(host)
    ensures var target, bad := HidingScript(host), HidingScriptBad(host);
            && FormOf(target) == FilterForm && FormOf(bad) == BadfilterForm && Names(bad, target)
            && LineEffect(target).rules != {} && LineEffect(bad).cancelled == {}
  {
    var pattern := "||" + host + "^";
    HostPatternValid(host);
    ExampleText();
    HidingOptions();
    ExampleParts(pattern, "elemhide" + "," + "script");
    ExampleParts(pattern, "elemhide" + "," + ("script" + "," + "badfilter"));
    ExampleGap(HidingScript(host), HidingScriptBad(host), pattern);
  }

  lemma AdsLabels()
    ensures ValidLabel("ads") && ValidLabel("example")
  {
    assert forall c | c in "ads" :: IsLower(c);
    assert forall c | c in "example" :: IsLower(c);
  }

  /** For example `@@||ads.example^$elemhide,script`. */
  lemma AdsExample()
    ensures HostValid("ads.example")
  {
    AdsLabels();
    var parts := ["ads", "example"];
    assert parts[1..] == ["example"];
    assert Join(["example"], '.') == "example";
    assert Join(parts, '.') == "ads" + ['.'] + "example" == "ads.example";
    assert '.' !in "ads" && '.' !in "example";
    SplitJoin(parts, '.');
  }

  // A plain badfilter can be too long to be read

  lemma GraphicIsAscii(p: string)
    requires PatternValid(p)
    ensures Ascii(p) && '$' !in p && '#' !in p && p != ""
  {
    forall i | 0 <= i < |p| ensures p[i] as int < 0x80 { assert p[i] in p; }
  }

  lemma PlainRead(p: string, options: string)
    requires '$' !in p && p != "" && p[0] != '@'
    ensures var line := p + "$" + options;
            !IsException(line) && Pattern(line) == p && OptionText(line) == options
  {
    var line := p + "$" + options;
    assert line[0] == p[0];
    FirstChar(line, "@@");
    ReadBack(false, p, options, options);
    assert Mark(false) + (p + "$" + options) == line;
  }

  lemma PlainForm(line: string)
    requires line != "" && line[0] !in {'!', '[', '@'} && '#' !in line && Utf8Len(line) <= MAX_LINE
    requires "badfilter" !in AllOptions(line)
    ensures FormOf(line) == FilterForm
  {
    FirstChar(line, "!");
    FirstChar(line, "[Adblock");
    NotContained(line, "#@#", '#');
    NotContained(line, "##", '#');
  }

  lemma PlainTranslated(line: string)
    requires !IsException(line)
    ensures Translated(line) == Some(line)
  {
  }

  lemma SingleOption(option: string)
    requires ',' !in option && option != ""
    ensures Split(option, ',') == [option] == NonEmpty([option])
  {
    OneOption(option);
    assert Join([option], ',') == option;
    SplitJoin([option], ',');
  }

  lemma ScriptSizes()
    ensures "badfilter" !in ["script"] && '#' !in "script" && |"script"| == 6 && |"badfilter"| == 9 && ',' !in "badfilter"
  {
  }

  lemma ScriptOptions()
    ensures Split("script", ',') == ["script"] == NonEmpty(["script"])
    ensures Split("script" + "," + "badfilter", ',') == ["script", "badfilter"] == NonEmpty(["script", "badfilter"])
    ensures "badfilter" !in ["script"] && '#' !in "script" && |"script"| == 6 && |"badfilter"| == 9
  {
    ScriptIsPlain();
    ScriptSizes();
    SingleOption("script");
    TwoOptions("script", "badfilter");
  }

  lemma LongNames(p: string)
    requires PatternValid(p) && p[0] !in {'!', '[', '@'}
    ensures Names(p + "$" + ("script" + "," + "badfilter"), p + "$" + "script")
  {
    GraphicIsAscii(p);
    PlainRead(p, "script");
    PlainRead(p, "script" + "," + "badfilter");
    ScriptOptions();
    assert ["script", "badfilter"] == ["script"] + ["badfilter"];
    assert "badfilter" in ["script", "badfilter"];
  }

  lemma ScriptText(p: string)
    requires Ascii(p) && '#' !in p
    ensures Ascii(p + "$" + "script") && '#' !in p + "$" + "script" && |p + "$" + "script"| == |p| + 7
  {
    assert |"script"| == 6 && Ascii("script") && '#' !in "script";
  }

  lemma ScriptForm(p: string)
    requires PatternValid(p) && p[0] !in {'!', '[', '@'} && |p| + 7 <= MAX_LINE
    ensures var target := p + "$" + "script"; FormOf(target) == FilterForm && !IsException(target)
    ensures Pattern(p + "$" + "script") == p && OptionText(p + "$" + "script") == "script"
  {
    var target := p + "$" + "script";
    GraphicIsAscii(p);
    ScriptText(p);
    PlainRead(p, "script");
    ScriptOptions();
    assert target[0] == p[0];
    PlainForm(target);
  }

  lemma LongTarget(p: string)
    requires PatternValid(p) && p[0] !in {'!', '[', '@'} && |p| + 7 <= MAX_LINE
    ensures var target := p + "$" + "script"; Network(target).Ok? && Translates(target, target, Network(target).value)
    ensures !HidesGenerically(AllOptions(p + "$" + "script"))
  {
    ScriptForm(p);
    PlainTranslated(p + "$" + "script");
    ScriptCompiles(p + "$" + "script");
    ScriptDoesNotHide();
  }

  lemma ScriptDoesNotHide()
    ensures !HidesGenerically(Split("script", ','))
  {
    ScriptOptions();
    ScriptIsPlain();
    assert |"elemhide"| == 8 && |"generichide"| == 11;
  }

  /** For every long plain filter with `script` that is itself short enough, the badfilter is refused
      for its length and cancels nothing. */
  lemma LongCounterexample(p: string)
    requires PatternValid(p) && p[0] !in {'!', '[', '@'} && MAX_LINE - 17 < |p| <= MAX_LINE - 7
    ensures var target, bad := p + "$" + "script", p + "$" + ("script" + "," + "badfilter");
            && Network(target).Ok? && Translates(target, target, Network(target).value) && Names(bad, target)
            && LineEffect(target).rules != {} && LineEffect(bad).cancelled == {}
  {
    var target, bad := p + "$" + "script", p + "$" + ("script" + "," + "badfilter");
    LongTarget(p);
    LongNames(p);
    GraphicIsAscii(p);
    PlainRead(p, "script" + "," + "badfilter");
    assert |"script"| == 6 && |"badfilter"| == 9;
    assert |bad| > MAX_LINE;
    BadfilterCancels(target, target, Network(target).value, bad);
  }

  /** For example 2,040 times the letter a. */
  lemma LongExample()
    ensures PatternValid(seq(2040, _ => 'a')) && seq(2040, _ => 'a')[0] == 'a'
  {
    var p: string := seq(2040, _ => 'a');
    assert forall c | c in p :: c == 'a';
    FirstChar(p, "||*");
    FirstChar(p, "||");
    FirstChar(p, "|");
    FirstChar(p, "/");
    LastIsA(p);
    assert StripPattern(p) == p;
  }

  lemma LastIsA(p: string)
    requires p != "" && forall c | c in p :: c == 'a'
    ensures !EndsWith(p, "|")
  {
    assert p[|p| - 1] in p;
    assert p[|p| - 1..] == [p[|p| - 1]];
    FirstChar([p[|p| - 1]], "|");
  }

  // A badfilter takes a trailing "$" off its last modifier

  lemma DollarSplits()
    ensures Split("script$" + "," + "badfilter", ',') == ["script$", "badfilter"]
  {
    assert |"script$"| == 7 && |"badfilter"| == 9;
    assert ',' !in "script$" && ',' !in "badfilter";
    TwoOptions("script$", "badfilter");
  }

  lemma DollarRemains()
    ensures Without(["script$", "badfilter"], ["badfilter"]) == ["script$"]
  {
    assert |"script$"| == 7 && |"badfilter"| == 9;
    assert ["script$", "badfilter"][1..] == ["badfilter"] && ["badfilter"][1..] == [];
    assert Without([], ["badfilter"]) == [];
    assert Without(["badfilter"], ["badfilter"]) == [];
  }

  lemma DollarTrims()
    ensures TrimEndChar("script$", '$') == "script"
  {
    var s := "script$";
    assert |s| == 7 && s[6] == '$' && s[..6] == "script";
    TrimUnit(s, '$');
    assert "script"[5] == 't' && |"script"| == 6;
    NoEndTrimmed("script", '$');
  }

  lemma DollarKept(bad: string)
    requires AllOptions(bad) == ["script$", "badfilter"]
    ensures KeptText(bad) == "script" && "badfilter" in AllOptions(bad)
  {
    DollarRemains();
    assert Join(["script$"], ',') == "script$";
    DollarTrims();
    assert ["script$", "badfilter"][1] == "badfilter";
  }

  lemma PlainBadForm(bad: string)
    requires bad != "" && bad[0] !in {'!', '[', '@'} && '#' !in bad && Utf8Len(bad) <= MAX_LINE
    requires "badfilter" in AllOptions(bad)
    ensures FormOf(bad) == BadfilterForm
  {
    FirstChar(bad, "!");
    FirstChar(bad, "[Adblock");
    FormWithoutHash(bad);
  }

  lemma DollarText(p: string)
    requires Ascii(p) && '#' !in p && |p| <= 256
    ensures var bad := p + "$" + ("script$" + "," + "badfilter"); '#' !in bad && Utf8Len(bad) <= MAX_LINE
  {
    var bad := p + "$" + ("script$" + "," + "badfilter");
    assert |"script$"| == 7 && |"badfilter"| == 9 && Ascii("script$") && Ascii("badfilter");
    assert Ascii(bad);
    assert '#' !in "script$" && '#' !in "badfilter";
  }

  lemma DollarRefused(target: string)
    requires OptionText(target) == "script$"
    ensures Network(target).Err? && Options(target) == ["script$"]
  {
    assert |"script$"| == 7 && "script$"[6] == '$' && ',' !in "script$";
    OneOption("script$");
    assert "script$" in Options(target);
    if Network(target).Ok? {
      SupportedOptions(target);
      SupportedHasNoDollar(IsException(target), "script$");
    }
  }

  lemma DollarNames(bad: string, target: string)
    requires IsException(bad) == IsException(target) && Pattern(bad) == Pattern(target)
    requires AllOptions(bad) == ["script$", "badfilter"] && Options(target) == ["script$"]
    ensures Names(bad, target)
  {
    assert |"script$"| == 7 && |"badfilter"| == 9;
    TwoOptions("script$", "badfilter");
    assert Options(bad) == ["script$"] + ["badfilter"];
    assert AllOptions(bad)[1] == "badfilter";
  }

  lemma DollarExample(p: string, bad: string, line: string, target: string)
    requires PatternValid(p) && p[0] == '|' && |p| <= 256
    requires bad == p + "$" + ("script$" + "," + "badfilter") && line == p + "$" + "script" && target == p + "$" + "script$"
    ensures Names(bad, target) && Network(target).Err? && Network(line).Ok?
    ensures LineEffect(bad).cancelled == RuleSet(Network(line).value)
  {
    GraphicIsAscii(p);
    PlainRead(p, "script$" + "," + "badfilter");
    PlainRead(p, "script");
    PlainRead(p, "script$");
    ScriptCompiles(line);
    ScriptOptions();
    DollarSplits();
    DollarKept(bad);
    DollarText(p);
    PlainBadForm(bad);
    BadfilterNames(bad, line);
    DollarRefused(target);
    DollarNames(bad, target);
  }

  /** `||host^$script$,badfilter` names a line that does not compile, and cancels the rules of
      `||host^$script`. */
  lemma DollarCancels(host: string)
    requires HostValid(host)
    ensures var p := "||" + host + "^";
            var bad, line, target := p + "$" + ("script$" + "," + "badfilter"), p + "$" + "script", p + "$" + "script$";
            && Names(bad, target) && Network(target).Err? && Network(line).Ok?
            && LineEffect(bad).cancelled == RuleSet(Network(line).value)
  {
    var p := "||" + host + "^";
    HostPatternValid(host);
    AnchorStart(host);
    DollarExample(p, p + "$" + ("script$" + "," + "badfilter"), p + "$" + "script", p + "$" + "script$");
  }

  // A badfilter can take away another exception's guard

  lemma BareRead(p: string)
    requires '$' !in p
    ensures IsException("@@" + p) && Pattern("@@" + p) == p && OptionText("@@" + p) == "" && Options("@@" + p) == []
  {
    ReadBack(true, p, "", "");
    assert Split("", ',') == [""] && NonEmpty([""]) == [];
  }

  lemma BareTranslates(p: string)
    requires PatternValid(p)
    ensures Translate(p, true, []) == Ok([Guard(p)])
  {
    assert Combine([]) == Ok(NO_MODIFIERS);
    KindsOfAll(NO_MODIFIERS, RESOURCE_TYPES);
    BareRules(p, NO_MODIFIERS);
  }

  lemma BareRules(p: string, st: Filter)
    requires st == NO_MODIFIERS && KindsFrom(st, RESOURCE_TYPES) == RESOURCE_TYPES
    ensures RulesOf(p, true, st) == Ok([Guard(p)])
  {
    assert RESOURCE_TYPES != [] && Kinds(st) == RESOURCE_TYPES;
    assert PlainRule(p, true, st) == Guard(p);
    assert [] + [Guard(p)] == [Guard(p)];
  }

  lemma {:induction false} KindsOfAll(st: Filter, kinds: seq<Kind>)
    requires st.positive == {} && st.negative == {}
    ensures KindsFrom(st, kinds) == kinds
  {
    if kinds != [] {
      KindsOfAll(st, kinds[1..]);
      assert kinds == [kinds[0]] + kinds[1..];
    }
  }

  /** The guard of an untranslatable exception is the rule of the bare exception with its pattern, so
      the badfilter of the bare exception cancels it. */
  lemma GuardCancelled(p: string, bad: string)
    requires PatternValid(p) && Names(bad, "@@" + p)
    ensures Guard(p) in Badfilter(bad).cancelled
  {
    GraphicIsAscii(p);
    BareRead(p);
    BareTranslates(p);
    assert LineModifiers("@@" + p) == [];
    PlainTargetCancelled("@@" + p, bad);
    assert [Guard(p)][0] == Guard(p);
  }

  lemma BareForm(p: string)
    requires PatternValid(p)
    ensures FormOf("@@" + p) == FilterForm
  {
    GraphicIsAscii(p);
    BareRead(p);
    assert "badfilter" !in [""] && Split("", ',') == [""];
    ExceptionForms("@@" + p);
  }

  /** And with it, in whatever list, the guard of every exception with that pattern. */
  lemma GuardLost(sources: seq<Source>, p: string, bad: string)
    requires PatternValid(p) && Names(bad, "@@" + p) && bad in AllRaws(sources)
    ensures Guard(p) in LineEffect(bad).cancelled && Guard(p) !in Kept(Collect(Effects(sources)))
  {
    BareForm(p);
    GraphicIsAscii(p);
    BareRead(p);
    BadfilterForms("@@" + p, bad);
    GuardCancelled(p, bad);
    BadfilterLine(bad);
    CancelledNotKept(AllRaws(sources), LineEffect, bad);
    EffectsOfRaws(sources);
  }
}
