/** The browser's `urlFilter` patterns: `||` and `|` anchors, `*` wildcards and
    `^` separators.  Full-hostname anchors mean exactly label-suffix matching. */
module UrlFilter {
  import opened Text
  import opened Hosts

  /** A URL cut at its host: scheme, "://", host, and what follows the host. */
  datatype Url = Url(scheme: string, host: string, rest: string) {
    function Full(): string { scheme + "://" + host + rest }
  }

  /** A canonical URL with a named host. */
  predicate WellFormed(url: Url) {
    (forall c | c in url.host :: IsLowerAlnum(c) || c == '-' || c == '.' || c == '_')
    && (url.rest == [] || url.rest[0] in {':', '/', '?', '#'})
  }

  predicate IsSeparator(c: char) {
    !IsAlnum(c) && c !in {'_', '-', '.', '%'}
  }

  /** Does pattern `p` match at the start of `s`?  With `toEnd` the match must use all of `s`. */
  predicate Glob(p: string, s: string, toEnd: bool)
    decreases |p| + |s|
  {
    if p == [] then !toEnd || s == []
    else if p[0] == '*' then Glob(p[1..], s, toEnd) || (s != [] && Glob(p, s[1..], toEnd))
    else if p[0] == '^' then
      if s == [] then Glob(p[1..], s, toEnd) else IsSeparator(s[0]) && Glob(p[1..], s[1..], toEnd)
    else s != [] && s[0] == p[0] && Glob(p[1..], s[1..], toEnd)
  }

  datatype Anchor = Domain | Start | Anywhere

  function AnchorOf(pattern: string): Anchor {
    if StartsWith(pattern, "||") then Domain else if StartsWith(pattern, "|") then Start else Anywhere
  }

  /** The pattern without its left anchor. */
  function Unanchored(pattern: string): string {
    match AnchorOf(pattern)
    case Domain => pattern[2..]
    case Start => pattern[1..]
    case Anywhere => pattern
  }

  function Core(pattern: string): string {
    var rest := Unanchored(pattern);
    if EndsWith(rest, "|") then rest[..|rest| - 1] else rest
  }

  function Fold(caseSensitive: bool, s: string): string {
    if caseSensitive then s else Lower(s)
  }

  ghost predicate Matches(pattern: string, caseSensitive: bool, url: Url) {
    var core := Fold(caseSensitive, Core(pattern));
    var toEnd := EndsWith(Unanchored(pattern), "|");
    var full := Fold(caseSensitive, url.Full());
    match AnchorOf(pattern)
    case Domain =>
      exists k :: LabelStart(url.host, k) && Glob(core, Fold(caseSensitive, url.host[k..] + url.rest), toEnd)
    case Start => Glob(core, full, toEnd)
    case Anywhere => exists k :: 0 <= k <= |full| && Glob(core, full[k..], toEnd)
  }

  lemma {:induction false} GlobLiteral(h: string, p: string, s: string, toEnd: bool)
    requires '*' !in h && '^' !in h
    ensures Glob(h + p, s, toEnd) <==> StartsWith(s, h) && Glob(p, s[|h|..], toEnd)
    decreases |h|
  {
    if h == [] {
      assert h + p == p && s[0..] == s;
    } else {
      assert (h + p)[0] == h[0] && (h + p)[1..] == h[1..] + p;
      assert h[0] in h;
      if s != [] && s[0] == h[0] {
        GlobLiteral(h[1..], p, s[1..], toEnd);
        assert StartsWith(s, h) <==> StartsWith(s[1..], h[1..]) by {
          if |h| <= |s| {
            assert s[..|h|] == [s[0]] + s[1..][..|h| - 1];
            assert h == [h[0]] + h[1..];
          }
        }
        if |h| <= |s| { assert s[|h|..] == s[1..][|h| - 1..]; }
      }
    }
  }

  lemma HostThenSeparator(h: string, tail: string, rest: string)
    requires forall c | c in h :: IsHostChar(c)
    requires forall c | c in tail :: IsLowerAlnum(c) || c == '-' || c == '.' || c == '_'
    requires rest == [] || rest[0] in {':', '/', '?', '#'}
    ensures Glob(h + "^", tail + rest, false) <==> tail == h
  {
    var s := tail + rest;
    assert '*' !in h && '^' !in h;
    GlobLiteral(h, "^", s, false);
    assert (h + rest)[..|h|] == h;
    if StartsWith(s, h) {
      var after := s[|h|..];
      assert Glob("^", after, false) <==> after == [] || IsSeparator(after[0]) by {
        assert "^"[1..] == [];
      }
      if |h| > |tail| {
        LongPrefix(h, tail, rest);
      } else if |h| < |tail| {
        assert after[0] == tail[|h|] && tail[|h|] in tail;
        assert !IsSeparator(after[0]);
      } else {
        assert s[..|h|] == tail;
        assert after == rest;
      }
    }
  }

  lemma LongPrefix(h: string, tail: string, rest: string)
    requires StartsWith(tail + rest, h) && |tail| < |h|
    ensures rest != [] && rest[0] in h
  {
    assert (tail + rest)[..|h|][|tail|] == rest[0];
  }

  lemma HostAnchorShape(host: string)
    requires HostValid(host)
    ensures AnchorOf("||" + host + "^") == Domain
    ensures Unanchored("||" + host + "^") == host + "^" == Core("||" + host + "^")
    ensures !EndsWith(host + "^", "|")
  {
    var pattern := "||" + host + "^";
    assert pattern[..2] == "||";
    assert pattern[2..] == host + "^";
    assert (host + "^")[|host|..] == "^";
  }

  /** `||host^` matches exactly the host and its subdomains, whatever its case. */
  lemma HostAnchorIsSuffixMatch(host: string, url: Url)
    requires HostValid(host) && WellFormed(url)
    ensures Matches("||" + host + "^", false, url) <==> MatchesDomain(url.host, Lower(host))
  {
    var low := Lower(host);
    LowerHostIsDomain(host);
    HostChars(low);
    HostAnchorShape(host);
    assert Lower(host + "^") == low + "^";
    forall k | LabelStart(url.host, k)
      ensures Glob(low + "^", Lower(url.host[k..] + url.rest), false) <==> url.host[k..] == low
    {
      var tail := url.host[k..];
      forall i | 0 <= i < |tail| ensures LowerChar(tail[i]) == tail[i] { assert tail[i] in url.host; }
      assert forall c | c in tail :: c in url.host;
      assert Lower(tail + url.rest) == tail + Lower(url.rest);
      HostThenSeparator(low, tail, Lower(url.rest));
    }
    MatchesDomainIffSuffix(url.host, low);
  }

  // Case

  lemma {:induction false} GlobIgnoresCase(p: string, s: string, toEnd: bool)
    requires Glob(p, s, toEnd)
    ensures Glob(Lower(p), Lower(s), toEnd)
    decreases |p| + |s|
  {
    if p != [] {
      LowerTail(p);
      if s != [] { LowerTail(s); }
      if p[0] == '*' {
        if Glob(p[1..], s, toEnd) {
          GlobIgnoresCase(p[1..], s, toEnd);
        } else {
          GlobIgnoresCase(p, s[1..], toEnd);
        }
      } else if s == [] {
        GlobIgnoresCase(p[1..], s, toEnd);
      } else {
        GlobIgnoresCase(p[1..], s[1..], toEnd);
      }
    }
  }

  lemma LowerTail(s: string)
    requires s != []
    ensures Lower(s)[0] == LowerChar(s[0]) && Lower(s)[1..] == Lower(s[1..])
  {
  }

  lemma LowerDrop(s: string, k: nat)
    requires k <= |s|
    ensures Lower(s)[k..] == Lower(s[k..])
  {
  }

  lemma DomainIgnoresCase(pattern: string, core: string, toEnd: bool, url: Url)
    requires AnchorOf(pattern) == Domain && core == Core(pattern) && toEnd == EndsWith(Unanchored(pattern), "|")
    requires Matches(pattern, true, url)
    ensures Matches(pattern, false, url)
  {
    var k :| LabelStart(url.host, k) && Glob(core, Fold(true, url.host[k..] + url.rest), toEnd);
    GlobIgnoresCase(core, url.host[k..] + url.rest, toEnd);
    assert Glob(Lower(core), Fold(false, url.host[k..] + url.rest), toEnd);
  }

  lemma AnywhereIgnoresCase(pattern: string, core: string, toEnd: bool, full: string, url: Url)
    requires AnchorOf(pattern) == Anywhere && core == Core(pattern) && toEnd == EndsWith(Unanchored(pattern), "|")
    requires full == url.Full() && Matches(pattern, true, url)
    ensures Matches(pattern, false, url)
  {
    var k :| 0 <= k <= |full| && Glob(core, full[k..], toEnd);
    GlobIgnoresCase(core, full[k..], toEnd);
    LowerDrop(full, k);
    var low := Fold(false, full);
    assert low == Lower(full) && |low| == |full|;
    assert 0 <= k <= |low| && Glob(Fold(false, core), low[k..], toEnd);
  }

  /** What a pattern matches with case it also matches without. */
  lemma MatchesIgnoresCase(pattern: string, url: Url)
    requires Matches(pattern, true, url)
    ensures Matches(pattern, false, url)
  {
    var core, toEnd := Core(pattern), EndsWith(Unanchored(pattern), "|");
    match AnchorOf(pattern) {
      case Domain => DomainIgnoresCase(pattern, core, toEnd, url);
      case Start => GlobIgnoresCase(core, url.Full(), toEnd);
      case Anywhere => AnywhereIgnoresCase(pattern, core, toEnd, url.Full(), url);
    }
  }
}
