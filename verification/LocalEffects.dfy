/** What a local list does once it is saved: its lines decide in the browser, and a pick hides what was
    picked. */
module LocalEffects {
  import opened Text
  import opened Hosts
  import opened Selector
  import opened LocalRules
  import opened LocalCompiler
  import opened LocalMeaning
  import Dnr
  import Controller
  import ControllerSteps
  import Picker
  import Validator

  /** The extension keeps the network rules as they came, and the hiding rules without their texts. */
  ghost predicate SavedAs(c: Compilation, saved: Controller.Compilation) {
    && saved.network == c.network && |saved.cosmetics| == |c.cosmetics|
    && forall i | 0 <= i < |c.cosmetics| ::
         saved.cosmetics[i].domains == c.cosmetics[i].domains && saved.cosmetics[i].excluded == {}
         && saved.cosmetics[i].selector == c.cosmetics[i].selector
  }

  /** Whatever text compiles can be saved. */
  lemma CompiledIsValid(text: string, source: string, hash: string -> nat, c: Compilation, saved: Controller.Compilation)
    requires WithinBounds(text) && Utf8Len(source) <= 128 && Compiles(Scan(Raws(text), source), hash, c) && SavedAs(c, saved)
    ensures Controller.ValidLocal(saved)
  {
    CompilationAccepted(text, source, hash, c);
    Validator.ValidatedIsValid(saved, [], "");
  }

  lemma LayerByLines(raws: seq<string>, network: seq<Controller.BrowserRule>, exception: bool, q: Dnr.Request)
    requires SomeLine(raws, exception, q)
             <==> exists x :: x in Controller.RulesOf(network) && x.action == (if exception then Dnr.Allow else Dnr.Block) && Dnr.Applies(x, q)
    requires forall x | x in Controller.RulesOf(network) :: x.action != Dnr.AllowAllRequests
    ensures Controller.AnyApplies(network, !exception, q) <==> SomeLine(raws, exception, q)
  {
    if Controller.AnyApplies(network, !exception, q) {
      var i :| 0 <= i < |network| && (network[i].rule.action == Dnr.Block) == !exception && Dnr.Applies(network[i].rule, q);
      assert network[i] in network && network[i].rule in Controller.RulesOf(network);
    }
    if x :| x in Controller.RulesOf(network) && x.action == (if exception then Dnr.Allow else Dnr.Block) && Dnr.Applies(x, q) {
      var r :| r in network && r.rule == x;
      var i :| 0 <= i < |network| && network[i] == r;
    }
  }

  lemma LocalLayer(text: string, source: string, hash: string -> nat, c: Compilation, exception: bool, q: Dnr.Request)
    requires Compiles(Scan(Raws(text), source), hash, c) && Dnr.WellFormed(q)
    ensures Controller.AnyApplies(c.network, !exception, q) <==> SomeLine(Raws(text), exception, q)
  {
    var raws, rules := Raws(text), Controller.RulesOf(c.network);
    ScanKeyed(raws, source);
    EmittedRules(Scan(raws, source), AllNetwork(raws), hash, c);
    EmittedShapely(rules, AllNetwork(raws));
    RulesByLines(raws, rules, exception, q);
    LayerByLines(raws, c.network, exception, q);
  }

  /** Where protection is on and the page is not paused, the saved local list has the last word on every
      request that one of its lines describes: an exception lets it through and otherwise a plain line
      blocks it, whatever the subscriptions say. */
  lemma LocalListDecides(text: string, source: string, hash: string -> nat, c: Compilation, config: Controller.Config,
                         q: Dnr.Request)
    requires Compiles(Scan(Raws(text), source), hash, c) && Dnr.WellFormed(q)
    requires Controller.ValidConfig(config) && config.enabled && config.compiled.network == c.network
    requires !Controller.SiteOverride(config.disabledSites, q)
    ensures var raws, verdict := Raws(text), Dnr.Decide(Controller.RulesOf(Controller.DesiredRules(config)), q);
            && (SomeLine(raws, true, q) ==> verdict == Dnr.Allowed)
            && (SomeLine(raws, false, q) && !SomeLine(raws, true, q) ==> verdict == Dnr.Blocked)
  {
    LocalLayer(text, source, hash, c, true, q);
    LocalLayer(text, source, hash, c, false, q);
    Controller.LayeredPrecedence(config, q);
  }

  // Picks

  lemma {:induction false} LineInside(before: string, line: string, rest: string)
    requires '\n' !in line
    ensures StripCr(line) in Lines(before + ("\n" + (line + ("\n" + rest))))
    decreases |before|
  {
    var tail := line + ("\n" + rest);
    var text := before + ("\n" + tail);
    var n := IndexOf(before, '\n');
    IndexOfBounds(before, '\n');
    if n < |before| {
      var later := before[n + 1..];
      LineInside(later, line, rest);
      assert text[n] == '\n' && text[..n] == before[..n];
      IndexOfIs(text, '\n', n);
      assert text[n + 1..] == later + ("\n" + tail);
    } else {
      assert text[|before|] == '\n' && text[..|before|] == before && text[|before| + 1..] == tail;
      IndexOfIs(text, '\n', |before|);
      FirstOf(line, rest);
    }
  }

  lemma FirstOf(line: string, rest: string)
    requires '\n' !in line
    ensures StripCr(line) in Lines(line + ("\n" + rest))
  {
    var text := line + ("\n" + rest);
    assert text[|line|] == '\n' && text[..|line|] == line;
    IndexOfIs(text, '\n', |line|);
    assert StripCr(line) == Lines(text)[0];
  }

  /** The last character of a selector is no white space. */
  lemma SelectorEnd(s: string)
    requires ValidSelector(s)
    ensures !IsWhitespace(s[|s| - 1])
  {
    match ShapeOf(s) {
      case Plain => CompoundEnd(s);
      case Checked(_, _) => CheckedEnd(s);
    }
  }

  lemma CompoundEnd(s: string)
    requires Compound(s) && s != ""
    ensures !IsWhitespace(s[|s| - 1])
  {
    CompoundChars(s);
    assert s[|s| - 1] in s;
  }

  lemma CheckedEnd(s: string)
    requires ShapeOf(s).Checked?
    ensures s != "" && s[|s| - 1] == ')'
  {
    SplitOnceJoins(s, CHILD_CHECK);
    var tail := SplitOnce(s, CHILD_CHECK).value.1;
    LastChar(tail, ')');
  }

  lemma PickText(host: string, selector: string)
    requires IsDomain(host) && ValidSelector(selector)
    ensures var rule := Picker.PickerRule(host, selector); StripCr(rule) == rule && Trim(rule) == rule
  {
    var rule := Picker.PickerRule(host, selector);
    SelectorEnd(selector);
    Picker.DomainStart(host);
    DomainChar(host);
    assert rule[|rule| - 1] == selector[|selector| - 1] && rule[0] == host[0];
    assert TrimStart(rule) == rule;
  }

  lemma DomainChar(host: string)
    requires IsDomain(host) && host != ""
    ensures !IsWhitespace(host[0]) && host[0] != '!' && host[0] != '[' && forall c | c in host :: IsLowerAlnum(c) || c == '-' || c == '.'
  {
    forall c | c in host ensures IsLowerAlnum(c) || c == '-' || c == '.' { CharsOfParts(host, '.', c); }
    assert host[0] in host;
  }

  lemma PickedRaw(text: string, token: string, rule: string)
    requires '\n' !in rule && StripCr(rule) == rule && Trim(rule) == rule
    ensures rule in Raws(text + Picker.Block(token, rule))
  {
    var marker := Picker.MARKER;
    var block := Picker.Block(token, rule);
    assert marker[0] == '\n';
    var stripped := StripBom(text);
    assert StripBom(text + block) == stripped + block by {
      if text != "" { assert (text + block)[..1] == text[..1]; } else { assert text + block == block && block[..1][0] == '\n'; }
    }
    var before := stripped + (marker + token);
    assert stripped + block == before + ("\n" + (rule + ("\n" + "")));
    LineInside(before, rule, "");
    var lines := TextLines(text + block);
    var i :| 0 <= i < |lines| && lines[i] == rule;
    assert Raws(text + block)[i] == Trim(lines[i]);
  }

  lemma PickNotIgnored(host: string, rest: string)
    requires IsDomain(host) && host != ""
    ensures !IgnoredLine(host + rest)
  {
    var raw := host + rest;
    DomainChar(host);
    assert raw[0] == host[0];
    assert "[Adblock]"[0] == '[' && "[Adblock Plus 2.0]"[0] == '[';
  }

  lemma PickCuts(host: string, selector: string)
    requires IsDomain(host) && ValidSelector(selector)
    ensures var rule := Picker.PickerRule(host, selector);
            !IgnoredLine(rule) && !Contains(rule, "#@#") && SplitOnce(rule, "##") == Some((host, selector))
  {
    var rule := Picker.PickerRule(host, selector);
    Picker.DomainStart(host);
    Picker.SelectorHasNoNewline(selector);
    DomainChar(host);
    PickNotIgnored(host, "##" + selector);
    assert rule == host + ("##" + selector);
    NotContained(rule, "#@#", '@');
    SplitOnceAt(host, "##", selector);
  }

  lemma PickScope(host: string)
    requires IsDomain(host) && Lower(host) == host
    ensures LocalScope(host) && Split(host, ',') == [host]
  {
    HostsAgree(host);
    HostChars(host);
    assert ',' !in host;
    SplitWhole(host, ',');
    assert LowerAll([host]) == {host};
  }

  lemma DomainLower(host: string)
    requires IsDomain(host)
    ensures Lower(host) == host
  {
    if host != "" { DomainChar(host); }
    forall i | 0 <= i < |host| ensures LowerChar(host[i]) == host[i] { assert host[i] in host; }
  }

  /** The line of a pick asks to hide the element on the host and its subdomains, and nowhere else. */
  lemma PickAsks(host: string, selector: string, at: string)
    requires IsDomain(host) && ValidSelector(selector)
    ensures LocalMeaning.AsksToHide(Picker.PickerRule(host, selector), Canonical(selector), at) <==> MatchesDomain(at, host)
  {
    PickCuts(host, selector);
    DomainLower(host);
    PickScope(host);
    Picker.DomainStart(host);
    assert host in [host];
  }

  /** A valid pick added to any text hides what was picked, on its host and the subdomains, once the text
      compiles. */
  lemma PickTakesEffect(text: string, host: string, selector: string, token: string, source: string, hash: string -> nat,
                        c: Compilation, at: string)
    requires Picker.ValidPick(host, selector, token) && MatchesDomain(at, host)
    requires Compiles(Scan(Raws(text + ControllerSteps.PickerBlock(host, selector, token)), source), hash, c)
    ensures exists item :: item in c.cosmetics && item.selector == Canonical(selector) && Covers(item.domains, at)
  {
    var rule := Picker.PickerRule(host, selector);
    Picker.PickIsLine(host, selector, token);
    PickText(host, selector);
    PickedRaw(text, token, rule);
    PickAsks(host, selector, at);
    LocalHidden(text + Picker.Block(token, rule), source, hash, c, Canonical(selector), at);
  }
}
