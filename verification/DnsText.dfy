/** What one list line does to the DNS policy, read from its text. */
module DnsText {
  import opened Text
  import opened Hosts
  import opened DnsPolicy

  // Names

  /** One dot of any kind may end a name. */
  ghost predicate NameOf(name: string, body: string) {
    name == body || exists dot :: IsDot(dot) && name == body + [dot]
  }

  /** A name is normalised exactly when it is a valid host name, but for its case and one final dot,
      and no address; the result is that host in lower case. */
  lemma NormalizeIs(name: string, host: string)
    ensures Normalize(name) == Some(host)
            <==> exists body :: NameOf(name, body) && HostValid(Lower(body)) && !IsAddress(Lower(body)) && host == Lower(body)
  {
    if Normalize(name) == Some(host) {
      var body := StripDot(name);
      if name != body { assert name == body + [name[|name| - 1]]; }
      assert NameOf(name, body);
    }
    if body :| NameOf(name, body) && HostValid(Lower(body)) && !IsAddress(Lower(body)) && host == Lower(body) {
      BodyStripped(name, body);
      LoweredPlain(body);
      assert forall c | IsDot(c) :: !IsWhitespace(c);
      NormalizeShort(name);
    }
  }

  lemma BodyStripped(name: string, body: string)
    requires NameOf(name, body) && HostValid(Lower(body))
    ensures StripDot(name) == body
  {
    var low := Lower(body);
    ValidHostEnds(low);
    assert low[|low| - 1] == LowerChar(body[|body| - 1]);
    if name != body {
      var dot :| IsDot(dot) && name == body + [dot];
      Appended(body, dot);
    }
  }

  // The parts of a line

  predicate Directive(raw: string) { StartsWith(raw, "!#") }

  predicate Exception(raw: string) { StartsWith(raw, "@@") }

  /** Empty, a comment, a header, or a line with one of the marks of cosmetic filters. */
  predicate Skipped(raw: string) {
    raw == "" || raw[0] == '!' || raw[0] == '['
    || (!Exception(raw) && exists mark | mark in ["##", "#@#", "#?#", "#@?#", "#$#", "#@$#", "#%#", "#@%#"] :: Contains(raw, mark))
  }

  /** A modifier after the first "$". */
  predicate HasModifier(raw: string, o: string) {
    SplitOnce(raw, "$").Some? && o in Split(SplitOnce(raw, "$").value.1, ',')
  }

  predicate HidingWord(o: string) {
    o in ["generichide", "elemhide", "specifichide", "ghide", "ehide", "shide"]
  }

  /** An exception with hiding modifiers and others only that do not widen them. */
  ghost predicate HidesOnly(raw: string) {
    && Exception(raw)
    && (exists o :: HasModifier(raw, o) && HidingWord(o))
    && (forall o | HasModifier(raw, o) ::
          HidingWord(o) || StartsWith(o, "domain=")
          || o in ["third-party", "~third-party", "first-party", "~first-party", "match-case", "badfilter"])
  }

  /** A `badfilter`, in any case and with space around it. */
  ghost predicate Badfilter(raw: string) {
    exists o :: HasModifier(raw, o) && Lower(Trim(o)) == "badfilter"
  }

  ghost predicate PageWide(raw: string) {
    Exception(raw) && exists o :: HasModifier(raw, o) && o in ["document", "doc", "genericblock"]
  }

  predicate BoundaryChar(c: char) { c == '^' || c == '/' || c == ':' || c == '|' }

  /** After "||" the line names this host, up to the first boundary before any "$". */
  ghost predicate NamesHost(raw: string, host: string) {
    exists name, mark, rest ::
      && raw == Marked(Exception(raw), "||" + name + [mark] + rest)
      && BoundaryChar(mark) && (forall c | c in name :: !BoundaryChar(c) && c != '$')
      && Normalize(name) == Some(host)
  }

  /** Neither a directive nor a line that does nothing. */
  ghost predicate Counts(raw: string) { !Directive(raw) && !Skipped(raw) && !HidesOnly(raw) }

  ghost predicate Allows(raw: string) { exists host :: UnconditionalForm(raw, true, host) }

  /** An exception or badfilter that is not simply `@@||name^`. */
  ghost predicate Unclear(raw: string) {
    Counts(raw) && (Exception(raw) || Badfilter(raw)) && !Allows(raw)
  }

  /** Nothing can be said about a single host. */
  ghost predicate Suppresses(raw: string) {
    Directive(raw) || (Unclear(raw) && (PageWide(raw) || forall host :: !NamesHost(raw, host)))
  }

  ghost predicate Protects(raw: string, host: string) { Unclear(raw) && !PageWide(raw) && NamesHost(raw, host) }

  // Reading the parts

  lemma SkippedReads(raw: string)
    ensures Directive(raw) == PreprocessorLine(raw) && Skipped(raw) == Ignored(raw)
  {
  }

  lemma ModifierReads(raw: string, o: string)
    ensures HasModifier(raw, o) <==> Options(raw).Some? && o in Options(raw).value
  {
  }

  lemma HidesReads(raw: string)
    ensures HidesOnly(raw) == CosmeticOnlyException(raw)
  {
    if Options(raw).Some? {
      forall o ensures HasModifier(raw, o) <==> o in Options(raw).value { ModifierReads(raw, o); }
    }
  }

  lemma BadfilterReads(raw: string)
    ensures Badfilter(raw) == HasBadfilter(raw)
  {
    if Options(raw).Some? {
      forall o ensures HasModifier(raw, o) <==> o in Options(raw).value { ModifierReads(raw, o); }
    }
  }

  lemma PageReads(raw: string)
    ensures PageWide(raw) == PageLevelException(raw)
  {
    if Options(raw).Some? {
      forall o ensures HasModifier(raw, o) <==> o in Options(raw).value { ModifierReads(raw, o); }
    }
  }

  lemma {:induction false} BoundaryIs(s: string)
    ensures forall i | 0 <= i < Boundary(s) :: !BoundaryChar(s[i])
    ensures Boundary(s) < |s| ==> BoundaryChar(s[Boundary(s)])
  {
    if s != "" && s[0] !in ['^', '/', ':', '|'] {
      BoundaryIs(s[1..]);
      forall i | 0 <= i < Boundary(s) ensures !BoundaryChar(s[i]) {
        if i > 0 { assert s[i] == s[1..][i - 1]; }
      }
    }
  }

  lemma BoundaryAt(s: string, n: nat)
    requires n < |s| && BoundaryChar(s[n]) && forall i | 0 <= i < n :: !BoundaryChar(s[i])
    ensures Boundary(s) == n
  {
    BoundaryIs(s);
  }

  /** A text cut after its "||", at a boundary, and before its first "$". */
  lemma CutParts(body: string, cut: nat, end: nat)
    requires cut <= |body| && StartsWith(body[..cut], "||") && 2 + end < cut
    ensures body == "||" + body[2..2 + end] + [body[2 + end]] + body[3 + end..]
    ensures body[..cut][2..][..end] == body[2..2 + end] && body[..cut][2..][end] == body[2 + end]
  {
    assert body[..2] == body[..cut][..2] == "||";
    CutJoins(body, 2 + end, 1);
    assert body[..2 + end] == body[..2] + body[2..2 + end];
    assert body[2 + end..2 + end + 1] == [body[2 + end]];
  }

  lemma NameChars(body: string, cut: nat, end: nat)
    requires cut <= |body| && 2 + end < cut && end <= Boundary(body[..cut][2..]) && '$' !in body[..cut]
    ensures forall c | c in body[2..2 + end] :: !BoundaryChar(c) && c != '$'
  {
    var anchored := body[..cut][2..];
    BoundaryIs(anchored);
    var name := body[2..2 + end];
    forall i | 0 <= i < end ensures !BoundaryChar(name[i]) && name[i] != '$' {
      assert anchored[i] == body[2 + i] && body[..cut][2 + i] in body[..cut];
    }
  }

  ghost predicate BodyNames(body: string, name: string, mark: char, rest: string, host: string) {
    && body == "||" + name + [mark] + rest && BoundaryChar(mark)
    && (forall c | c in name :: !BoundaryChar(c) && c != '$') && Normalize(name) == Some(host)
  }

  lemma SuffixCut(body: string, host: string) returns (name: string, mark: char, rest: string)
    requires ExceptionBody(body) == Some(host)
    ensures BodyNames(body, name, mark, rest, host)
  {
    var cut := IndexOf(body, '$');
    var anchored := body[..cut][2..];
    var end := Boundary(anchored);
    BoundaryIs(anchored);
    IndexOfBounds(body, '$');
    NameChars(body, cut, end);
    CutParts(body, cut, end);
    name, mark, rest := body[2..2 + end], body[2 + end], body[3 + end..];
  }

  /** The body of a line, without its mark. */
  function ExceptionBody(body: string): Option<string> {
    var pattern := body[..IndexOf(body, '$')];
    if !StartsWith(pattern, "||") || Boundary(pattern[2..]) == |pattern[2..]| then None
    else Normalize(pattern[2..][..Boundary(pattern[2..])])
  }

  lemma SuffixParts(raw: string, host: string)
    requires ExceptionSuffix(raw) == Some(host)
    ensures NamesHost(raw, host)
  {
    var body := StripPrefix(raw, "@@");
    MarkedBody(raw);
    var name, mark, rest := SuffixCut(body, host);
    assert raw == Marked(Exception(raw), "||" + name + [mark] + rest);
  }

  lemma MarkedStarts(raw: string, body: string)
    requires raw == Marked(Exception(raw), body) && body != "" && body[0] == '|'
    ensures StripPrefix(raw, "@@") == body
  {
    if Exception(raw) { assert ("@@" + body)[2..] == body; }
  }

  lemma PatternUpTo(body: string, name: string, mark: char, rest: string)
    requires body == "||" + name + [mark] + rest && BoundaryChar(mark) && '$' !in name
    ensures var pattern := body[..IndexOf(body, '$')];
            StartsWith(pattern, "||") && |pattern| > 2 + |name| && pattern[2..][..|name|] == name && pattern[2..][|name|] == mark
  {
    var head := "||" + name + [mark];
    var n := IndexOf(body, '$');
    IndexOfBounds(body, '$');
    assert '$' !in head && body[..|head|] == head;
    assert forall i | 0 <= i < |head| :: body[..|head|][i] in head;
    var pattern := body[..n];
    assert pattern[..|head|] == head;
    assert pattern[..2] == head[..2] == "||";
    assert pattern[2..][..|name|] == head[2..][..|name|] == name;
    assert pattern[2 + |name|] == head[2 + |name|];
  }

  lemma SuffixReads(raw: string, host: string)
    ensures ExceptionSuffix(raw) == Some(host) <==> NamesHost(raw, host)
  {
    if ExceptionSuffix(raw) == Some(host) { SuffixParts(raw, host); }
    if NamesHost(raw, host) {
      var name, mark, rest :|
        && raw == Marked(Exception(raw), "||" + name + [mark] + rest)
        && BoundaryChar(mark) && (forall c | c in name :: !BoundaryChar(c) && c != '$')
        && Normalize(name) == Some(host);
      var body := "||" + name + [mark] + rest;
      assert body[0] == '|';
      MarkedStarts(raw, body);
      PatternUpTo(body, name, mark, rest);
      var anchored := body[..IndexOf(body, '$')][2..];
      forall i | 0 <= i < |name| ensures !BoundaryChar(anchored[i]) {
        assert anchored[i] == anchored[..|name|][i] && name[i] in name;
      }
      BoundaryAt(anchored, |name|);
    }
  }

  // The classes

  lemma AllowsReads(raw: string)
    ensures Allows(raw) <==> Classify(raw).Allow?
  {
    if Classify(raw).Allow? { AllowLineShape(raw, Classify(raw).host); }
    if host :| UnconditionalForm(raw, true, host) { AllowLineShape(raw, host); }
  }

  lemma CountsReads(raw: string)
    ensures Counts(raw) <==> !PreprocessorLine(raw) && !Ignored(raw) && !CosmeticOnlyException(raw)
  {
    SkippedReads(raw);
    HidesReads(raw);
  }

  lemma ClassSteps(raw: string)
    ensures PreprocessorLine(raw) ==> Classify(raw) == Suppress
    ensures !PreprocessorLine(raw) && (Ignored(raw) || CosmeticOnlyException(raw)) ==> Classify(raw) == Ignore
    ensures (!PreprocessorLine(raw) && !Ignored(raw) && !CosmeticOnlyException(raw)
             && !Classify(raw).Allow? && !Classify(raw).Block?) ==> Classify(raw) == Unsupported(raw)
  {
  }

  lemma UnsupportedSteps(raw: string)
    ensures Unsupported(raw)
            == if !StartsWith(raw, "@@") && !HasBadfilter(raw) then Omit
               else if PageLevelException(raw) then Suppress
               else match ExceptionSuffix(raw) case Some(host) => Protect(host) case None => Suppress
  {
  }

  lemma UnclearReads(raw: string)
    ensures Unclear(raw) ==> Classify(raw) == Unsupported(raw) && !Classify(raw).Block? && (StartsWith(raw, "@@") || HasBadfilter(raw))
    ensures Counts(raw) && !Unclear(raw) ==> Classify(raw).Allow? || Classify(raw).Block? || Classify(raw) == Omit
  {
    CountsReads(raw);
    BadfilterReads(raw);
    AllowsReads(raw);
    ClassSteps(raw);
    UnsupportedSteps(raw);
    if Unclear(raw) && Classify(raw).Block? { SaferLinesDoNotBlock(raw, Classify(raw).host); }
  }

  lemma NotCounted(raw: string)
    requires !Counts(raw)
    ensures Classify(raw) == if Directive(raw) then Suppress else Ignore
  {
    CountsReads(raw);
    SkippedReads(raw);
    ClassSteps(raw);
  }

  /** A line suppresses all list blocks exactly when it is a directive, or an unclear exception or
      badfilter that is page-wide or names no host. */
  lemma SuppressLineShape(raw: string)
    ensures Classify(raw) == Suppress
            <==> Suppresses(raw)
  {
    if Counts(raw) {
      UnclearReads(raw);
      PageReads(raw);
      UnsupportedSteps(raw);
      forall host ensures ExceptionSuffix(raw) == Some(host) <==> NamesHost(raw, host) { SuffixReads(raw, host); }
      CountsReads(raw);
      SkippedReads(raw);
      if Unclear(raw) && ExceptionSuffix(raw).Some? { SuffixReads(raw, ExceptionSuffix(raw).value); }
    } else {
      NotCounted(raw);
    }
  }

  /** A line protects a host exactly when it is an unclear exception or badfilter that is not page-wide
      and names that host. */
  lemma ProtectLineShape(raw: string, host: string)
    ensures Classify(raw) == Protect(host) <==> Protects(raw, host)
  {
    if Counts(raw) {
      UnclearReads(raw);
      PageReads(raw);
      UnsupportedSteps(raw);
      SuffixReads(raw, host);
    } else {
      NotCounted(raw);
    }
  }

  /** And it does nothing exactly when it is empty, a comment, a header, cosmetic, or an exception from
      hiding only. */
  lemma IgnoreLineShape(raw: string)
    ensures Classify(raw) == Ignore <==> !Directive(raw) && (Skipped(raw) || HidesOnly(raw))
  {
    if Counts(raw) {
      UnclearReads(raw);
      UnsupportedSteps(raw);
    } else {
      NotCounted(raw);
    }
  }
}
