/** Host names, the suffix walk and the meaning of one line for the DNS policy. */
module DnsPolicy {
  import opened Text
  import opened Hosts
  import LocalRules

  const MAX_NAME_BYTES := 1024

  // Names

  /** Trailing dots of all four Unicode kinds. */
  predicate IsDot(c: char) {
    c == '.' || c as int == 0x3002 || c as int == 0xFF0E || c as int == 0xFF61
  }

  function StripDot(name: string): string {
    if name != "" && IsDot(name[|name| - 1]) then name[..|name| - 1] else name
  }

  predicate AllDigits(part: string) { forall i | 0 <= i < |part| :: IsDigit(part[i]) }

  predicate IsAddress(host: string) { forall part | part in Split(host, '.') :: AllDigits(part) }

  /** `normalize_hostname` for ASCII names.  The strict IDNA step refuses a name that still ends in
      a dot, so the program's second strip never finds one. */
  function Normalize(name: string): Option<string> {
    if name == "" || Utf8Len(name) > MAX_NAME_BYTES || exists c | c in name :: IsWhitespace(c) then None
    else
      var ascii := StripDot(name);
      var host := Lower(ascii);
      if Ascii(ascii) && HostValid(host) && !IsAddress(host) then Some(host) else None
  }

  lemma NormalizeValid(name: string)
    requires Normalize(name).Some?
    ensures HostValid(Normalize(name).value) && Lower(Normalize(name).value) == Normalize(name).value
    ensures !IsAddress(Normalize(name).value)
  {
    LowerTwice(StripDot(name));
  }

  lemma {:induction false} EmptyLastPart(s: string, c: char)
    requires s != "" && s[|s| - 1] == c
    ensures "" in Split(s, c)
    decreases |s|
  {
    var n := IndexOf(s, c);
    IndexOfFirst(s, c, |s| - 1);
    var rest := s[n + 1..];
    if rest != "" { EmptyLastPart(rest, c); }
    assert Split(s, c) == [s[..n]] + Split(rest, c);
    if rest == "" { assert Split(rest, c)[0] == ""; }
  }

  lemma ValidHostEnds(host: string)
    requires HostValid(host)
    ensures !IsDot(host[|host| - 1]) && !EndsWith(host, ".")
  {
    HostChars(host);
    assert host[|host| - 1] in host;
    if host[|host| - 1] == '.' { EmptyLastPart(host, '.'); }
    assert host[|host| - 1..] == [host[|host| - 1]];
  }

  lemma HostCharPlain(c: char)
    requires IsHostChar(c)
    ensures !IsWhitespace(c)
  {
  }

  /** Normalising a normalised name changes nothing. */
  lemma NormalizeIdempotent(name: string)
    requires Normalize(name).Some?
    ensures Normalize(Normalize(name).value) == Normalize(name)
  {
    var host := Normalize(name).value;
    NormalizeValid(name);
    NormalHost(host);
  }

  lemma Appended(body: string, dot: char)
    ensures StripDot(body + [dot]) == if IsDot(dot) then body else body + [dot]
    ensures Utf8Len(body + [dot]) <= Utf8Len(body) + 4
  {
    assert (body + [dot])[..|body|] == body;
    Utf8LenConcat(body, [dot]);
  }

  lemma LoweredPlain(s: string)
    requires HostValid(Lower(s))
    ensures |s| <= 253 && Ascii(s) && forall c | c in s :: IsHostChar(c) && !IsWhitespace(c)
  {
    var low := Lower(s);
    HostChars(low);
    forall i | 0 <= i < |s| ensures IsHostChar(s[i]) && !IsWhitespace(s[i]) && s[i] as int < 0x80 {
      assert low[i] in low;
      HostCharPlain(s[i]);
    }
  }

  lemma NormalizeShort(name: string)
    requires HostValid(Lower(StripDot(name))) && !IsAddress(Lower(StripDot(name)))
    requires forall c | c in name :: !IsWhitespace(c)
    ensures Normalize(name) == Some(Lower(StripDot(name)))
  {
    var ascii := StripDot(name);
    LoweredPlain(ascii);
    if name != ascii {
      assert name == ascii + [name[|name| - 1]];
      Appended(ascii, name[|name| - 1]);
    }
  }

  lemma NormalizeRefuses(name: string)
    requires !HostValid(Lower(StripDot(name))) || IsAddress(Lower(StripDot(name)))
    ensures Normalize(name) == None
  {
  }

  lemma DotsPlain(body: string, dot: char)
    requires (forall c | c in body :: !IsWhitespace(c)) && IsDot(dot)
    ensures forall c | c in body + [dot] :: !IsWhitespace(c)
  {
  }

  /** One dot of any of the four kinds may end a name and means nothing. */
  lemma RootDot(body: string, dot: char)
    requires StripDot(body) == body && IsDot(dot)
    ensures Normalize(body + [dot]) == Normalize(body)
  {
    Appended(body, dot);
    if HostValid(Lower(body)) && !IsAddress(Lower(body)) {
      LoweredPlain(body);
      DotsPlain(body, dot);
      NormalizeShort(body);
      NormalizeShort(body + [dot]);
    } else {
      NormalizeRefuses(body);
      NormalizeRefuses(body + [dot]);
    }
  }

  /** A name that ends in two dots is refused. */
  lemma TwoDotsRefused(body: string, dot: char, other: char)
    requires IsDot(dot) && IsDot(other)
    ensures Normalize(body + [other] + [dot]) == None
  {
    Appended(body + [other], dot);
    var low := Lower(body + [other]);
    assert low[|low| - 1] == LowerChar(other) == other;
    if HostValid(low) { ValidHostEnds(low); }
    NormalizeRefuses(body + [other] + [dot]);
  }

  lemma NormalHost(host: string)
    requires HostValid(host) && Lower(host) == host && !IsAddress(host)
    ensures Normalize(host) == Some(host)
  {
    HostChars(host);
    ValidHostEnds(host);
    forall c | c in host ensures !IsWhitespace(c) { HostCharPlain(c); }
  }

  lemma LowerTwice(s: string)
    ensures Lower(Lower(s)) == Lower(s)
  {
  }

  // Suffix walk

  datatype Matched = Matched(source: string, rule: string)

  type HostRules = map<string, Matched>

  /** The next shorter suffix: what follows the first dot. */
  function Parent(name: string): (r: Option<string>)
    ensures r.Some? ==> |r.value| < |name|
  {
    var n := IndexOf(name, '.');
    if n == |name| then None else Some(name[n + 1..])
  }

  /** `suffix_match`: the key found by walking up. */
  function SuffixMatch(rules: set<string>, name: string): Option<string>
    decreases |name|
  {
    if name in rules then Some(name)
    else match Parent(name) case None => None case Some(rest) => SuffixMatch(rules, rest)
  }

  function Stored(rules: HostRules, key: Option<string>): Option<Matched> {
    if key.Some? && key.value in rules then Some(rules[key.value]) else None
  }

  lemma WalkStep(rules: set<string>, suffix: string)
    requires suffix !in rules
    ensures SuffixMatch(rules, suffix)
            == match Parent(suffix) case None => None case Some(rest) => SuffixMatch(rules, rest)
  {
  }

  method WalkSuffixes(rules: HostRules, name: string) returns (found: Option<Matched>)
    ensures found == Stored(rules, SuffixMatch(rules.Keys, name))
  {
    var suffix := name;
    while true
      invariant SuffixMatch(rules.Keys, name) == SuffixMatch(rules.Keys, suffix)
      decreases |suffix|
    {
      if suffix in rules {
        return Some(rules[suffix]);
      }
      WalkStep(rules.Keys, suffix);
      match Parent(suffix) {
        case None => return None;
        case Some(rest) => suffix := rest;
      }
    }
  }

  ghost predicate Covered(rules: set<string>, name: string) {
    exists rule :: rule in rules && MatchesDomain(name, rule)
  }

  lemma ParentIsNextSuffix(name: string, rule: string)
    ensures match Parent(name)
            case Some(rest) => MatchesDomain(name, rest) && |rest| < |name|
                               && (MatchesDomain(name, rule) <==> rule == name || MatchesDomain(rest, rule))
            case None => MatchesDomain(name, rule) <==> rule == name
  {
    var n := IndexOf(name, '.');
    IndexOfBounds(name, '.');
    if n < |name| {
      assert name[n..] == "." + name[n + 1..];
      NextSuffix(name, name[n + 1..], rule, n);
    } else if EndsWith(name, "." + rule) {
      DotInside(name, "." + rule);
    }
  }

  lemma NextSuffix(name: string, rest: string, rule: string, n: nat)
    requires n == IndexOf(name, '.') < |name| && rest == name[n + 1..] && name[n..] == "." + rest
    ensures MatchesDomain(name, rest) && (MatchesDomain(name, rule) <==> rule == name || MatchesDomain(rest, rule))
  {
    if EndsWith(name, "." + rule) { LaterDot(name, rest, rule, n); }
    if MatchesDomain(rest, rule) { MatchesDomainTransitive(name, rest, rule); }
  }

  lemma LaterDot(name: string, rest: string, rule: string, n: nat)
    requires n == IndexOf(name, '.') < |name| && rest == name[n + 1..] && EndsWith(name, "." + rule)
    ensures MatchesDomain(rest, rule)
  {
    var tail := "." + rule;
    var k := |name| - |tail|;
    assert name[k..] == tail && name[k] == name[k..][0] == '.';
    IndexOfFirst(name, '.', k);
    if k > n {
      assert rest[|rest| - |tail|..] == name[k..];
    } else {
      assert rest == name[k + 1..] == name[k..][1..] == rule;
    }
  }

  lemma DotInside(name: string, tail: string)
    requires EndsWith(name, tail) && tail != "" && tail[0] == '.'
    ensures IndexOf(name, '.') < |name|
  {
    var k := |name| - |tail|;
    assert name[k..][0] == '.';
    IndexOfFirst(name, '.', k);
  }

  /** The walk finds a rule exactly when one covers the name, and then the longest such rule. */
  lemma {:induction false} SuffixMatchLongest(rules: set<string>, name: string)
    ensures SuffixMatch(rules, name).Some? <==> Covered(rules, name)
    ensures SuffixMatch(rules, name).Some? ==>
              var best := SuffixMatch(rules, name).value;
              best in rules && MatchesDomain(name, best)
              && forall rule | rule in rules && MatchesDomain(name, rule) :: |rule| <= |best|
    decreases |name|
  {
    forall rule ensures match Parent(name)
                        case Some(rest) => MatchesDomain(name, rest) && |rest| < |name|
                                           && (MatchesDomain(name, rule) <==> rule == name || MatchesDomain(rest, rule))
                        case None => MatchesDomain(name, rule) <==> rule == name
    {
      ParentIsNextSuffix(name, rule);
    }
    if name in rules {
      assert MatchesDomain(name, name);
      forall rule | rule in rules && MatchesDomain(name, rule) ensures |rule| <= |name| {}
    } else {
      match Parent(name) {
        case Some(rest) => SuffixMatchLongest(rules, rest);
        case None =>
      }
    }
  }

  // List lines

  predicate PreprocessorLine(raw: string) { StartsWith(raw, "!#") }

  const MARKERS: seq<string> := ["##", "#@#", "#?#", "#@?#", "#$#", "#@$#", "#%#", "#@%#"]

  predicate Ignored(raw: string) {
    raw == "" || StartsWith(raw, "!") || StartsWith(raw, "[")
    || (!StartsWith(raw, "@@") && exists marker | marker in MARKERS :: Contains(raw, marker))
  }

  const COSMETIC_OPTIONS: seq<string> := ["generichide", "elemhide", "specifichide", "ghide", "ehide", "shide"]
  const CONTEXT_OPTIONS: seq<string> := [
    "third-party", "~third-party", "first-party", "~first-party", "match-case", "badfilter"]
  const PAGE_OPTIONS: seq<string> := ["document", "doc", "genericblock"]

  function Options(raw: string): Option<seq<string>> {
    match SplitOnce(raw, "$") case Some(cut) => Some(Split(cut.1, ',')) case None => None
  }

  predicate CosmeticOnlyException(raw: string) {
    && StartsWith(raw, "@@") && Options(raw).Some?
    && (exists o | o in Options(raw).value :: o in COSMETIC_OPTIONS)
    && (forall o | o in Options(raw).value ::
          o in COSMETIC_OPTIONS || StartsWith(o, "domain=") || o in CONTEXT_OPTIONS)
  }

  predicate HasBadfilter(raw: string) {
    Options(raw).Some? && exists o | o in Options(raw).value :: Lower(Trim(o)) == "badfilter"
  }

  predicate PageLevelException(raw: string) {
    StartsWith(raw, "@@") && Options(raw).Some? && exists o | o in Options(raw).value :: o in PAGE_OPTIONS
  }

  datatype Verb = BlockHost | AllowHost

  function Marked(exception: bool, body: string): string { if exception then "@@" + body else body }

  function Anchored(name: string): string { "||" + name + "^" }

  /** `unconditional_rule`: an unmodified `||host^`, read again by the local rule parser. */
  function UnconditionalRule(raw: string): Option<(string, Verb)> {
    var body := StripPrefix(raw, "@@");
    if !StartsWith(body, "||") || !EndsWith(body[2..], "^") then None else
      match Normalize(body[2..][..|body| - 3])
      case None => None
      case Some(host) =>
        match LocalRules.ParseRule(Marked(StartsWith(raw, "@@"), Anchored(host)))
        case Some(Network(_, exception, false)) => Some((host, if exception then AllowHost else BlockHost))
        case _ => None
  }

  /** `exception_suffix`: the host an exception or badfilter pattern begins with. */
  function ExceptionSuffix(raw: string): Option<string> {
    var body := StripPrefix(raw, "@@");
    var pattern := body[..IndexOf(body, '$')];
    if !StartsWith(pattern, "||") then None else
      var anchored := pattern[2..];
      var end := Boundary(anchored);
      if end == |anchored| then None else Normalize(anchored[..end])
  }

  /** Position of the first of `^`, `/`, `:` and `|`. */
  function Boundary(s: string): (n: nat)
    ensures n <= |s|
  {
    if s == "" || s[0] in ['^', '/', ':', '|'] then 0 else 1 + Boundary(s[1..])
  }

  /** What one line does to the policy. */
  datatype Line =
    | Ignore
    | Block(host: string)
    | Allow(host: string)
    /** An unsupported exception or badfilter protects its whole host suffix. */
    | Protect(host: string)
    | Suppress
    | Omit

  /** The unsupported tail of the loop body. */
  function Unsupported(raw: string): Line {
    if !StartsWith(raw, "@@") && !HasBadfilter(raw) then Omit
    else if PageLevelException(raw) then Suppress
    else match ExceptionSuffix(raw) case Some(host) => Protect(host) case None => Suppress
  }

  /** One turn of the loop of `DnsPolicy::compile`, for a trimmed line. */
  function Classify(raw: string): Line {
    if PreprocessorLine(raw) then Suppress
    else if Ignored(raw) || CosmeticOnlyException(raw) then Ignore
    else if HasBadfilter(raw) || Utf8Len(raw) > LocalRules.MAX_LINE_BYTES then Unsupported(raw)
    else match UnconditionalRule(raw)
    case Some((host, BlockHost)) => Block(host)
    case Some((host, AllowHost)) => Allow(host)
    case None => Unsupported(raw)
  }

  // What the two accepted forms look like

  lemma NormalizeChars(name: string)
    requires Normalize(name).Some?
    ensures forall c | c in name :: IsHostChar(c) || IsDot(c)
  {
    var ascii := StripDot(name);
    LoweredPlain(ascii);
    assert forall c | c in name :: c in ascii || IsDot(c);
  }

  lemma MarkedParts(exception: bool, name: string)
    ensures StartsWith(Marked(exception, Anchored(name)), "@@") == exception
    ensures StripPrefix(Marked(exception, Anchored(name)), "@@") == Anchored(name)
  {
    var body := Anchored(name);
    assert body[0] == '|';
    if exception {
      assert ("@@" + body)[2..] == body;
    }
  }

  lemma AnchoredParts(name: string)
    ensures StartsWith(Anchored(name), "||") && Anchored(name)[2..] == name + "^"
    ensures EndsWith(name + "^", "^") && (name + "^")[..|name|] == name
  {
    assert Anchored(name)[..2] == "||";
    assert (name + "^")[|name|..] == "^";
  }

  lemma FormChars(exception: bool, name: string, c: char)
    requires c !in name && c != '@' && c != '|' && c != '^'
    ensures c !in Marked(exception, Anchored(name)) && c !in Anchored(name)
  {
  }

  /** The canonical rule is always accepted, with the exception flag of its prefix. */
  lemma CanonicalParses(host: string, exception: bool)
    requires HostValid(host) && Lower(host) == host
    ensures LocalRules.ParseRule(Marked(exception, Anchored(host)))
            == Some(LocalRules.Network(Anchored(host), exception, false))
  {
    var raw := Marked(exception, Anchored(host));
    HostChars(host);
    FormChars(exception, host, '#');
    FormChars(exception, host, '$');
    NotContained(raw, "#@#", '#');
    NotContained(raw, "##", '#');
    NotContained(Anchored(host), "$", '$');
    MarkedParts(exception, host);
    AnchoredPattern(host, exception);
  }

  lemma AnchoredPattern(host: string, exception: bool)
    requires HostValid(host) && Lower(host) == host
    ensures LocalRules.ParsePattern(Anchored(host), exception, false)
            == Some(LocalRules.Network(Anchored(host), exception, false))
  {
    AnchoredParts(host);
  }

  /** An accepted line is exactly `||name^`, with or without the exception mark, and the
      second reading never refuses. */
  lemma UnconditionalShape(raw: string, exception: bool, host: string)
    ensures UnconditionalRule(raw) == Some((host, if exception then AllowHost else BlockHost))
            <==> UnconditionalForm(raw, exception, host)
  {
    if UnconditionalRule(raw).Some? {
      var mark, name := UnconditionalReads(raw);
      FormReads(mark, name);
    }
    if UnconditionalForm(raw, exception, host) {
      var name: string :| raw == Marked(exception, Anchored(name)) && Normalize(name) == Some(host);
      FormReads(exception, name);
    }
  }

  lemma MarkedBody(raw: string)
    ensures raw == Marked(StartsWith(raw, "@@"), StripPrefix(raw, "@@"))
  {
  }

  lemma AnchoredBody(body: string)
    requires StartsWith(body, "||") && EndsWith(body[2..], "^")
    ensures body == Anchored(body[2..][..|body| - 3])
  {
    var rest := body[2..];
    assert body == body[..2] + rest && rest == rest[..|rest| - 1] + rest[|rest| - 1..];
  }

  lemma UnconditionalReads(raw: string) returns (mark: bool, name: string)
    requires UnconditionalRule(raw).Some?
    ensures raw == Marked(mark, Anchored(name)) && Normalize(name).Some?
  {
    var body := StripPrefix(raw, "@@");
    mark, name := StartsWith(raw, "@@"), body[2..][..|body| - 3];
    MarkedBody(raw);
    AnchoredBody(body);
  }

  lemma FormReads(exception: bool, name: string)
    requires Normalize(name).Some?
    ensures UnconditionalRule(Marked(exception, Anchored(name)))
            == Some((Normalize(name).value, if exception then AllowHost else BlockHost))
  {
    MarkedParts(exception, name);
    AnchoredParts(name);
    NormalizeValid(name);
    CanonicalParses(Normalize(name).value, exception);
  }

  /** `||name^`, or `@@||name^` for an exception, of this host. */
  ghost predicate UnconditionalForm(raw: string, exception: bool, host: string) {
    exists name: string :: raw == Marked(exception, Anchored(name)) && Normalize(name) == Some(host)
  }

  /** Taken as it stands: no directive, comment, cosmetic marker, badfilter or excess length. */
  predicate Plain(raw: string) {
    && !PreprocessorLine(raw) && !Ignored(raw) && !CosmeticOnlyException(raw) && !HasBadfilter(raw)
    && Utf8Len(raw) <= LocalRules.MAX_LINE_BYTES
  }

  lemma NotIgnored(raw: string)
    requires raw != "" && raw[0] in "@|" && '#' !in raw
    ensures !PreprocessorLine(raw) && !Ignored(raw)
  {
    forall marker | marker in MARKERS ensures !Contains(raw, marker) {
      assert '#' in marker;
      NotContained(raw, marker, '#');
    }
  }

  lemma NoOptions(raw: string)
    requires '$' !in raw
    ensures !CosmeticOnlyException(raw) && !HasBadfilter(raw)
  {
    NotContained(raw, "$", '$');
  }

  lemma FormClean(raw: string, exception: bool, name: string)
    requires raw == Marked(exception, Anchored(name)) && forall c | c in name :: IsHostChar(c) || IsDot(c)
    ensures '#' !in raw && '$' !in raw
  {
    FormChars(exception, name, '#');
    FormChars(exception, name, '$');
  }

  lemma NormalizeBounds(name: string)
    requires Normalize(name).Some?
    ensures Utf8Len(name) <= MAX_NAME_BYTES
  {
  }

  lemma FormPlain(raw: string, exception: bool, host: string)
    requires UnconditionalForm(raw, exception, host)
    ensures Plain(raw) && raw != "" && raw[0] == if exception then '@' else '|'
  {
    var name: string :| raw == Marked(exception, Anchored(name)) && Normalize(name) == Some(host);
    NormalizeChars(name);
    FormClean(raw, exception, name);
    FormStart(exception, name);
    NotIgnored(raw);
    NoOptions(raw);
    NormalizeBounds(name);
    FormLength(exception, name);
  }

  lemma FormStart(exception: bool, name: string)
    ensures Marked(exception, Anchored(name)) != ""
    ensures Marked(exception, Anchored(name))[0] == if exception then '@' else '|'
  {
  }

  lemma PlainClassified(raw: string, host: string)
    ensures Classify(raw) == Block(host) <==> Plain(raw) && UnconditionalRule(raw) == Some((host, BlockHost))
    ensures Classify(raw) == Allow(host) <==> Plain(raw) && UnconditionalRule(raw) == Some((host, AllowHost))
  {
  }

  lemma FormLength(exception: bool, name: string)
    ensures Utf8Len(Marked(exception, Anchored(name))) <= Utf8Len(name) + 5
  {
    Utf8LenConcat("||", name);
    Utf8LenConcat("||" + name, "^");
    Utf8LenConcat("@@", Anchored(name));
  }

  /** A list line blocks a host exactly when it is `||name^`. */
  lemma BlockLineShape(raw: string, host: string)
    ensures Classify(raw) == Block(host) <==> UnconditionalForm(raw, false, host)
  {
    PlainClassified(raw, host);
    UnconditionalShape(raw, false, host);
    if UnconditionalForm(raw, false, host) { FormPlain(raw, false, host); }
  }

  /** A list line allows a host on its own terms exactly when it is `@@||name^`. */
  lemma AllowLineShape(raw: string, host: string)
    ensures Classify(raw) == Allow(host) <==> UnconditionalForm(raw, true, host)
  {
    PlainClassified(raw, host);
    UnconditionalShape(raw, true, host);
    if UnconditionalForm(raw, true, host) { FormPlain(raw, true, host); }
  }

  predicate SaferLine(raw: string) { StartsWith(raw, "@@") || HasBadfilter(raw) || PreprocessorLine(raw) }

  /** Exceptions, badfilters and preprocessing directives never block. */
  lemma SaferLinesDoNotBlock(raw: string, host: string)
    requires SaferLine(raw)
    ensures Classify(raw) != Block(host)
  {
    BlockLineShape(raw, host);
    if UnconditionalForm(raw, false, host) { FormPlain(raw, false, host); }
  }

  /** No exception, badfilter or directive is lost: it allows its host, protects its suffix or
      suppresses every list block, unless it is a comment or only about cosmetics. */
  lemma SaferLinesAct(raw: string)
    requires SaferLine(raw) && (PreprocessorLine(raw) || (!Ignored(raw) && !CosmeticOnlyException(raw)))
    ensures Classify(raw).Allow? || Classify(raw).Protect? || Classify(raw).Suppress?
  {
    if Classify(raw).Block? { SaferLinesDoNotBlock(raw, Classify(raw).host); }
  }
}
