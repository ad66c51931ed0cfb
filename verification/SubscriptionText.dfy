/** How the subscription compiler reads a line: which lines do nothing, which are filters, and what is
    left of an exception with hiding modifiers. */
module SubscriptionText {
  import opened Text
  import opened Dnr
  import opened NetworkFilter
  import opened NetworkText
  import opened SubscriptionLines
  import opened SubscriptionPromises
  import opened SubscriptionCosmetics
  import SubscriptionBadfilter

  // Forms

  /** Empty, a comment, or a list header. */
  predicate Comment(raw: string) { raw == "" || raw[0] == '!' || StartsWith(raw, "[Adblock") }

  lemma CommentReads(raw: string)
    ensures Comment(raw) <==> Skipped(raw)
  {
    if raw != "" { assert raw[..1] == "!" <==> raw[0] == '!'; }
  }

  /** Comments contribute nothing. */
  lemma CommentsDoNothing(raw: string)
    requires Comment(raw)
    ensures LineEffect(raw) == NOTHING
  {
    CommentReads(raw);
  }

  predicate ReadAsFilter(raw: string) {
    !Comment(raw) && '#' !in raw && (IsException(raw) || Utf8Len(raw) <= 2_048)
  }

  lemma HashForms(raw: string)
    requires '#' in raw
    ensures FormOf(raw) != FilterForm && FormOf(raw) != BadfilterForm
  {
  }

  lemma FilterForms(raw: string)
    requires '#' !in raw
    ensures FormOf(raw)
            == if Skipped(raw) then SkippedForm
               else if Utf8Len(raw) > MAX_LINE && !IsException(raw) then LongForm
               else if "badfilter" in AllOptions(raw) then BadfilterForm else FilterForm
  {
    NotContained(raw, "#@#", '#');
    NotContained(raw, "##", '#');
  }

  /** A line is read as a filter exactly when it is no comment, has no "#", is an exception or at most
      2,048 bytes long, and no option is `badfilter`; with that option it is a badfilter. */
  lemma FilterReads(raw: string)
    ensures FormOf(raw) == FilterForm <==> ReadAsFilter(raw) && "badfilter" !in AllOptions(raw)
    ensures FormOf(raw) == BadfilterForm <==> ReadAsFilter(raw) && "badfilter" in AllOptions(raw)
  {
    CommentReads(raw);
    if '#' in raw { HashForms(raw); } else { FilterForms(raw); }
  }

  /** A line can block exactly when it is read as a filter, is no exception, and its text is good. */
  lemma BlockLineReads(raw: string)
    ensures BlockLine(raw)
            <==> ReadAsFilter(raw) && "badfilter" !in AllOptions(raw) && !IsException(raw) && GoodLine(raw)
  {
    FilterReads(raw);
    LineAccepted(raw);
  }

  // Exceptions with hiding modifiers

  predicate HidingWord(o: string) { o == "generichide" || o == "elemhide" }

  /** A modifier that says nothing about requests by itself. */
  predicate ContextWord(o: string) {
    o == "third-party" || o == "~third-party" || o == "first-party" || o == "~first-party" || o == "match-case" || o == ""
    || StartsWith(o, "domain=")
  }

  /** Only about hiding, in some context. */
  ghost predicate HidingOnlyLine(raw: string) {
    (exists o :: o in AllOptions(raw) && HidingWord(o)) && forall o | o in AllOptions(raw) :: HidingWord(o) || ContextWord(o)
  }

  lemma HidingReads(options: seq<string>)
    ensures HidesGenerically(options) <==> exists o :: o in options && HidingWord(o)
  {
    if HidesGenerically(options) { assert HidingWord("generichide") && HidingWord("elemhide"); }
  }

  lemma ActionReads(options: seq<string>)
    ensures HasNetworkAction(Without(options, ["generichide", "elemhide"]))
            <==> exists o :: o in options && !HidingWord(o) && !ContextWord(o)
  {
    var rest := Without(options, ["generichide", "elemhide"]);
    forall o ensures o in rest && !StartsWith(o, "domain=") && o !in SubscriptionLines.CONTEXT_OPTIONS
                     <==> o in options && !HidingWord(o) && !ContextWord(o)
    {
      ContextReads(o);
    }
  }

  lemma ContextReads(o: string)
    ensures o in SubscriptionLines.CONTEXT_OPTIONS || StartsWith(o, "domain=") <==> ContextWord(o)
    ensures o in ["generichide", "elemhide"] <==> HidingWord(o)
  {
  }

  lemma TranslationSteps(raw: string)
    requires IsException(raw)
    ensures Translated(raw).None?
            <==> HidesGenerically(AllOptions(raw)) && !HasNetworkAction(Without(AllOptions(raw), ["generichide", "elemhide"]))
    ensures !HidesGenerically(AllOptions(raw)) ==> Translated(raw) == Some(raw)
  {
  }

  /** An exception only about hiding asks for no network rule and suppresses nothing. */
  lemma HidingOnlyMeans(raw: string)
    requires IsException(raw)
    ensures Translated(raw).None? <==> HidingOnlyLine(raw)
    ensures FormOf(raw) == FilterForm && HidingOnlyLine(raw) ==>
              LineEffect(raw).rules == {} && !LineEffect(raw).suppressBlocks
  {
    TranslationSteps(raw);
    HidingReads(AllOptions(raw));
    ActionReads(AllOptions(raw));
    if FormOf(raw) == FilterForm && Translated(raw).None? { NothingTranslated(raw); }
  }

  lemma NothingTranslated(raw: string)
    requires FormOf(raw) == FilterForm && IsException(raw) && Translated(raw).None?
    ensures LineEffect(raw).rules == {} && !LineEffect(raw).suppressBlocks
  {
    FilterArm(raw, FormOf(raw));
    FilterException(raw, true, None);
    HidingExemptionShape(raw);
  }

  lemma {:induction false} NonEmptyReads(options: seq<string>, o: string)
    ensures o in NonEmpty(options) <==> o in options && o != ""
  {
    if options != [] {
      NonEmptyReads(options[1..], o);
      assert options == [options[0]] + options[1..];
    }
  }

  lemma RemainingReads(raw: string, o: string)
    ensures o in NonEmpty(Without(AllOptions(raw), ["generichide", "elemhide"])) <==> o in Options(raw) && !HidingWord(o)
  {
    NonEmptyReads(Without(AllOptions(raw), ["generichide", "elemhide"]), o);
    NonEmptyReads(AllOptions(raw), o);
    ContextReads(o);
  }

  /** Any other exception asks for what it says without the hiding modifiers. */
  lemma TranslationReads(raw: string, line: string)
    requires IsException(raw) && Translated(raw) == Some(line)
    ensures IsException(line) && Pattern(line) == Pattern(raw)
    ensures forall o :: o in Options(line) <==> o in Options(raw) && !HidingWord(o)
  {
    TranslationSteps(raw);
    forall o ensures o in Options(line) <==> o in Options(raw) && !HidingWord(o) {
      if HidesGenerically(AllOptions(raw)) {
        SubscriptionBadfilter.HidingTranslation(raw, line);
        RemainingReads(raw, o);
      } else {
        HidingReads(AllOptions(raw));
        NonEmptyReads(AllOptions(raw), o);
      }
    }
    if HidesGenerically(AllOptions(raw)) { SubscriptionBadfilter.HidingTranslation(raw, line); }
  }

  // The pages an exemption names

  /** The first `domain=` modifier counts. */
  lemma {:induction false} FirstDomainIs(options: seq<string>, value: string)
    ensures FirstDomainOption(options) == Some(value)
            <==> exists i :: 0 <= i < |options| && options[i] == "domain=" + value
                             && forall j | 0 <= j < i :: !StartsWith(options[j], "domain=")
  {
    if options != [] {
      var first, rest := options[0], options[1..];
      FirstDomainIs(rest, value);
      if StartsWith(first, "domain=") {
        assert first == "domain=" + first[7..];
        if first == "domain=" + value { assert first[7..] == value; }
      } else if FirstDomainOption(rest) == Some(value) {
        var i :| 0 <= i < |rest| && rest[i] == "domain=" + value && forall j | 0 <= j < i :: !StartsWith(rest[j], "domain=");
        forall j | 0 <= j < i + 1 ensures !StartsWith(options[j], "domain=") {
          if j > 0 { assert options[j] == rest[j - 1]; }
        }
        assert options[i + 1] == "domain=" + value;
      } else if i :| 0 <= i < |options| && options[i] == "domain=" + value
                     && forall j | 0 <= j < i :: !StartsWith(options[j], "domain=")
      {
        assert StartsWith("domain=" + value, "domain=") by { assert ("domain=" + value)[..7] == "domain="; }
        assert rest[i - 1] == "domain=" + value;
        forall j | 0 <= j < i - 1 ensures !StartsWith(rest[j], "domain=") { assert rest[j] == options[j + 1]; }
      }
    }
  }

  // How lines are counted

  /** Every line is counted as what it became. */
  lemma LineClassIs(raw: string)
    ensures LineEffect(raw).class_ == CosmeticLine
            <==> FormOf(raw).RuleForm? && HidingLine(raw, FormOf(raw).scope, FormOf(raw).selector)
    ensures LineEffect(raw).class_ == NetworkLine
            <==> FormOf(raw) == FilterForm && Translated(raw).Some? && Network(Translated(raw).value).Ok?
  {
    FormShape(raw, FormOf(raw));
    if FormOf(raw).RuleForm? { HidingLineReads(raw, FormOf(raw).scope, FormOf(raw).selector, ""); } else { HidesOnlyByRules(raw); }
    NetworkClass(raw, FormOf(raw));
  }

  lemma NetworkClass(raw: string, form: Form)
    ensures EffectOf(raw, form).class_ == NetworkLine
            <==> form == FilterForm && Translated(raw).Some? && Network(Translated(raw).value).Ok?
  {
    if form.FilterForm? {
      FilterArm(raw, form);
      FilterClass(raw, Translated(raw), if IsException(raw) then HidingExemption(raw) else NOTHING);
    } else if form.ExceptionForm? || form.RuleForm? {
      CosmeticClass(form.scope, form.selector);
    } else if form.BadfilterForm? {
      BadfilterClass(raw);
    }
  }

  lemma CosmeticClass(scope: string, selector: string)
    ensures CosmeticException(scope, selector).class_ != NetworkLine && CosmeticRule(scope, selector).class_ != NetworkLine
  {
  }

  lemma BadfilterClass(raw: string)
    ensures Badfilter(raw).class_ != NetworkLine
  {
  }

  lemma FilterClass(raw: string, translated: Option<string>, hiding: Effect)
    requires hiding.class_ == IgnoredLine
    ensures Filtered(raw, translated, hiding).class_ == NetworkLine <==> translated.Some? && Network(translated.value).Ok?
  {
  }
}
