/** Every word of a filter line by itself: which requests a line with that one modifier matches. */
module NetworkWords {
  import opened Text
  import opened Hosts
  import opened Dnr
  import opened NetworkFilter
  import opened NetworkMeaning
  import opened ScopeText
  import opened NetworkText
  import SubscriptionBadfilter
  import SubscriptionGaps
  import UrlFilter

  /** The line with this pattern and this one modifier. */
  function LineOf(exception: bool, p: string, o: string): string {
    SubscriptionBadfilter.Mark(exception) + (p + "$" + o)
  }

  /** Without its mark the line is not read as an exception. */
  predicate Readable(exception: bool, p: string, o: string) {
    PatternValid(p) && (exception || !StartsWith(p + "$" + o, "@@"))
  }

  lemma LineParts(exception: bool, p: string, o: string)
    requires Readable(exception, p, o) && ',' !in o && o != ""
    ensures var line := LineOf(exception, p, o);
            IsException(line) == exception && Pattern(line) == p && Options(line) == [o]
  {
    SubscriptionGaps.GraphicIsAscii(p);
    SubscriptionBadfilter.ReadBack(exception, p, o, o);
    SubscriptionGaps.OneOption(o);
  }

  /** What the one word allows: a type of resource, and the rest of a request. */
  ghost predicate WordKind(o: string, kind: Kind) {
    && kind != MainFrame && ((forall k :: !TypeWord(o, k)) || TypeWord(o, kind)) && !NegatedType(o, kind)
  }

  ghost predicate WordTargets(p: string, o: string, hit: Hit) {
    && UrlFilter.Matches(p, o == "match-case", hit.url)
    && (ThirdPartyWord(o) ==> hit.thirdParty) && (FirstPartyWord(o) ==> !hit.thirdParty)
    && (DomainWord(o) ==> Admits(o[7..], '|', hit.initiator))
  }

  lemma WordReads(exception: bool, p: string, o: string, kind: Kind, hit: Hit)
    requires Readable(exception, p, o) && ',' !in o && o != "" && KnownWord(exception, o) && WordKind(o, kind)
    requires o != "document"
    ensures var line := LineOf(exception, p, o);
            Network(line).Ok? && (AnyMeets(Network(line).value, false, hit) <==> WordTargets(p, o, hit) && WordKind(o, hit.kind))
  {
    var line := LineOf(exception, p, o);
    LineParts(exception, p, o);
    SingleOption(line, o, kind);
    SingleOption(line, o, hit.kind);
    SingleTargets(line, o, hit);
    SingleGood(line, o, kind);
    LineAccepted(line);
    LineReads(line, hit);
  }

  lemma SingleOption(line: string, o: string, kind: Kind)
    requires Options(line) == [o]
    ensures AllowsKind(line, kind) <==> WordKind(o, kind)
    ensures "match-case" in Options(line) <==> o == "match-case"
    ensures PageLine(line) <==> IsException(line) && o == "document"
  {
    assert o in Options(line);
  }

  lemma SingleTargets(line: string, o: string, hit: Hit)
    requires Options(line) == [o]
    ensures Targets(line, hit) <==> WordTargets(Pattern(line), o, hit)
  {
    assert o in Options(line);
  }

  lemma SingleGood(line: string, o: string, kind: Kind)
    requires PatternValid(Pattern(line)) && Options(line) == [o] && KnownWord(IsException(line), o) && AllowsKind(line, kind)
    ensures GoodLine(line)
  {
  }

  lemma PartyChars(o: string)
    requires PartyWord(o) || o == "match-case"
    ensures ',' !in o && o != "" && o != "document" && !DomainWord(o)
  {
    if DomainWord(o) { DomainApart(o); }
  }

  lemma PartyKinds(o: string, kind: Kind)
    requires PartyWord(o) || o == "match-case"
    ensures WordKind(o, kind) <==> kind != MainFrame
  {
    forall k ensures !TypeWord(o, k) && !NegatedType(o, k) {
      OddNotType(o, k);
      TypeUntrimmed(o, k);
    }
  }

  lemma PartiesApart(o: string)
    ensures !(ThirdPartyWord(o) && FirstPartyWord(o)) && (PartyWord(o) ==> o != "match-case")
  {
  }

  /** Each of the eight party words restricts a line to the requests of its party. */
  lemma PartyLine(exception: bool, p: string, o: string, third: bool, hit: Hit)
    requires Readable(exception, p, o)
    requires if third then o in {"third-party", "3p", "~first-party", "~1p"} else o in {"first-party", "1p", "~third-party", "~3p"}
    ensures var line := LineOf(exception, p, o);
            Network(line).Ok?
            && (AnyMeets(Network(line).value, false, hit)
                <==> UrlFilter.Matches(p, false, hit.url) && hit.thirdParty == third && hit.kind != MainFrame)
  {
    PartyChars(o);
    PartiesApart(o);
    PartyKinds(o, Script);
    PartyKinds(o, hit.kind);
    WordReads(exception, p, o, Script, hit);
  }

  /** `match-case` restricts it to URLs it matches with case. */
  lemma CaseLine(exception: bool, p: string, hit: Hit)
    requires Readable(exception, p, "match-case")
    ensures var line := LineOf(exception, p, "match-case");
            Network(line).Ok?
            && (AnyMeets(Network(line).value, false, hit) <==> UrlFilter.Matches(p, true, hit.url) && hit.kind != MainFrame)
  {
    var o := "match-case";
    PartyChars(o);
    PartiesApart(o);
    PartyKinds(o, Script);
    PartyKinds(o, hit.kind);
    WordReads(exception, p, o, Script, hit);
  }

  lemma OneKind(w: string, a: Kind, b: Kind)
    requires TypeWord(w, a) && TypeWord(w, b)
    ensures a == b
  {
    TypeMeans(w, a);
    TypeMeans(w, b);
  }

  lemma TypeApart(w: string, kind: Kind)
    requires TypeWord(w, kind)
    ensures ',' !in w && w != "" && w != "document" && !OddWord(w) && w[0] != '~'
    ensures kind != MainFrame
  {
    TypeLetters(w, kind);
    TypeUntrimmed(w, kind);
    if OddWord(w) { OddNotType(w, kind); }
    if w == "document" { DocumentNotType(kind); }
  }

  lemma TypeKinds(w: string, kind: Kind, other: Kind)
    requires TypeWord(w, kind)
    ensures WordKind(w, other) <==> other == kind
  {
    TypeApart(w, kind);
    if TypeWord(w, other) { OneKind(w, kind, other); }
  }

  /** Each word for a type of resource restricts a line to that type. */
  lemma TypeLine(exception: bool, p: string, w: string, kind: Kind, hit: Hit)
    requires Readable(exception, p, w) && TypeWord(w, kind)
    ensures var line := LineOf(exception, p, w);
            Network(line).Ok?
            && (AnyMeets(Network(line).value, false, hit) <==> UrlFilter.Matches(p, false, hit.url) && hit.kind == kind)
  {
    TypeApart(w, kind);
    TypeKinds(w, kind, kind);
    TypeKinds(w, kind, hit.kind);
    WordReads(exception, p, w, kind, hit);
  }

  lemma TildeApart(w: string, kind: Kind)
    requires TypeWord(w, kind)
    ensures ',' !in "~" + w && !OddWord("~" + w) && "~" + w != "document" && TrimStartChar("~" + w, '~') == w
  {
    var o := "~" + w;
    TypeApart(w, kind);
    assert o[1..] == w && o[0] == '~';
    if OddWord(o) { OddNotType(o, kind); }
    assert "document"[0] == 'd';
  }

  lemma TildeKinds(w: string, kind: Kind, other: Kind)
    requires TypeWord(w, kind)
    ensures WordKind("~" + w, other) <==> other != MainFrame && other != kind
    ensures NegatedType("~" + w, kind)
  {
    var o := "~" + w;
    TildeApart(w, kind);
    forall k ensures !TypeWord(o, k) { TypeUntrimmed(o, k); }
    if TypeWord(w, other) { OneKind(w, kind, other); }
  }

  /** And with "~" to all other types. */
  lemma NegatedTypeLine(exception: bool, p: string, w: string, kind: Kind, hit: Hit)
    requires Readable(exception, p, "~" + w) && TypeWord(w, kind)
    ensures var line := LineOf(exception, p, "~" + w);
            Network(line).Ok?
            && (AnyMeets(Network(line).value, false, hit)
                <==> UrlFilter.Matches(p, false, hit.url) && hit.kind != kind && hit.kind != MainFrame)
  {
    var some := if kind == Script then Image else Script;
    TildeApart(w, kind);
    TildeKinds(w, kind, some);
    TildeKinds(w, kind, hit.kind);
    WordReads(exception, p, "~" + w, some, hit);
  }

  lemma SingleEntry(d: string)
    requires HostValid(d)
    ensures ',' !in d && Split(d, '|') == [d] && Split("~" + d, '|') == ["~" + d] && !Negates(d) && Negates("~" + d)
    ensures DomainOf(d) == d == DomainOf("~" + d) && d != ""
  {
    HostChars(d);
    assert '|' !in d && '|' !in "~" + d;
    SplitWhole(d, '|');
    SplitWhole("~" + d, '|');
    assert d[0] in d && ("~" + d)[1..] == d;
  }

  lemma DomainKinds(o: string, kind: Kind)
    requires DomainWord(o)
    ensures WordKind(o, kind) <==> kind != MainFrame
    ensures o != "document" && !PartyWord(o) && o != "match-case"
  {
    DomainApart(o);
    forall k ensures !TypeWord(o, k) && !NegatedType(o, k) {
      OddNotType(o, k);
      TypeUntrimmed(o, k);
    }
  }

  lemma EntryAdmits(d: string, initiator: Option<string>)
    requires HostValid(d)
    ensures Admits(d, '|', initiator) <==> initiator.Some? && MatchesDomain(initiator.value, Lower(d))
    ensures Admits("~" + d, '|', initiator) <==> !(initiator.Some? && MatchesDomain(initiator.value, Lower(d)))
    ensures GoodScope(d, '|') && GoodScope("~" + d, '|')
  {
    SingleEntry(d);
    assert d in [d] && "~" + d in ["~" + d];
    SubsetSize(NamesIn([d], false), {Lower(d)});
    SubsetSize(NamesIn([d], true), {});
    SubsetSize(NamesIn(["~" + d], false), {});
    SubsetSize(NamesIn(["~" + d], true), {Lower(d)});
  }

  lemma DomainValue(v: string)
    requires ',' !in v && v != ""
    ensures var o := "domain=" + v; DomainWord(o) && o[7..] == v && ',' !in o && o != "" && o != "domain="
  {
    assert |"domain="| == 7;
  }

  /** `domain=` restricts a line to initiators at or below the domain, and with "~" to all others. */
  lemma DomainLine(exception: bool, p: string, d: string, negated: bool, hit: Hit)
    requires HostValid(d) && Readable(exception, p, "domain=" + ((if negated then "~" else "") + d))
    ensures var line := LineOf(exception, p, "domain=" + ((if negated then "~" else "") + d));
            Network(line).Ok?
            && (AnyMeets(Network(line).value, false, hit)
                <==> UrlFilter.Matches(p, false, hit.url) && hit.kind != MainFrame
                     && (negated != (hit.initiator.Some? && MatchesDomain(hit.initiator.value, Lower(d)))))
  {
    var v := (if negated then "~" else "") + d;
    var o := "domain=" + v;
    SingleEntry(d);
    assert "" + d == d;
    DomainValue(v);
    EntryAdmits(d, hit.initiator);
    DomainKinds(o, Script);
    DomainKinds(o, hit.kind);
    WordReads(exception, p, o, Script, hit);
  }

  lemma DocumentParts(line: string)
    requires IsException(line) && Options(line) == ["document"] && PatternValid(Pattern(line))
    ensures GoodLine(line) && PageLine(line) && !TypedLine(line)
  {
    var o := "document";
    assert o in Options(line);
    forall k ensures !TypeWord(o, k) && !NegatedType(o, k) {
      DocumentNotType(k);
      TypeUntrimmed(o, k);
      assert o[0] == 'd';
    }
    assert AllowsKind(line, Script);
    assert KnownWord(true, o);
  }

  lemma DocumentTargets(line: string, hit: Hit)
    requires Options(line) == ["document"]
    ensures Targets(line, hit) <==> UrlFilter.Matches(Pattern(line), false, hit.url)
  {
    var o := "document";
    assert o[0] == 'd' && o[6] == 'n';
    assert !ThirdPartyWord(o) && !FirstPartyWord(o) && o != "match-case";
    if DomainWord(o) { DomainApart(o); }
    assert o in Options(line);
  }

  /** `document` on an exception lets through pages whose URL the pattern matches, with all that is in
      them, and no other request. */
  lemma DocumentLine(p: string, hit: Hit)
    requires PatternValid(p)
    ensures var line := LineOf(true, p, "document");
            && Network(line).Ok? && !AnyMeets(Network(line).value, false, hit)
            && (AnyMeets(Network(line).value, true, hit)
                <==> UrlFilter.Matches(p, false, hit.url) && (hit.kind == MainFrame || hit.kind == SubFrame))
  {
    assert ',' !in "document";
    LineParts(true, p, "document");
    DocumentReads(LineOf(true, p, "document"), hit);
  }

  lemma DocumentReads(line: string, hit: Hit)
    requires IsException(line) && Options(line) == ["document"] && PatternValid(Pattern(line))
    ensures Network(line).Ok? && !AnyMeets(Network(line).value, false, hit)
    ensures AnyMeets(Network(line).value, true, hit)
            <==> UrlFilter.Matches(Pattern(line), false, hit.url) && (hit.kind == MainFrame || hit.kind == SubFrame)
  {
    DocumentParts(line);
    DocumentTargets(line, hit);
    LineAccepted(line);
    LineReads(line, hit);
  }

  /** A line without modifiers matches everything but pages that its pattern matches, without case. */
  lemma BareLine(exception: bool, p: string, hit: Hit)
    requires PatternValid(p) && (exception || !StartsWith(p, "@@"))
    ensures var line := SubscriptionBadfilter.Mark(exception) + p;
            Network(line).Ok?
            && (AnyMeets(Network(line).value, false, hit) <==> UrlFilter.Matches(p, false, hit.url) && hit.kind != MainFrame)
  {
    var line := SubscriptionBadfilter.Mark(exception) + p;
    SubscriptionGaps.GraphicIsAscii(p);
    BareMarked(exception, p);
    SubscriptionBadfilter.ReadBack(exception, p, "", "");
    assert Split("", ',') == [""] && NonEmpty([""]) == [];
    BareReads(line, hit);
  }

  lemma BareReads(line: string, hit: Hit)
    requires Options(line) == [] && PatternValid(Pattern(line))
    ensures Network(line).Ok?
    ensures AnyMeets(Network(line).value, false, hit)
            <==> UrlFilter.Matches(Pattern(line), false, hit.url) && hit.kind != MainFrame
  {
    assert AllowsKind(line, Script);
    LineAccepted(line);
    LineReads(line, hit);
  }

  lemma BareMarked(exception: bool, p: string)
    requires exception || !StartsWith(p, "@@")
    ensures exception || !StartsWith(p + "$" + "", "@@")
  {
    var s := p + "$";
    assert p + "$" + "" == s;
    if |p| >= 2 {
      assert s[..2] == p[..2];
    } else if |p| == 1 {
      assert s[..2][1] == '$';
    }
  }
}
