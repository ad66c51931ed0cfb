/** Hostname checks of the two programs, and suffix matching on whole labels. */
module Hosts {
  import opened Text

  const MAX_HOST := 253
  const MAX_LABEL := 63

  predicate IsLabelChar(c: char) { IsAlnum(c) || c == '-' }
  predicate IsHostChar(c: char) { IsLabelChar(c) || c == '.' }

  predicate ValidLabel(s: string) {
    s != [] && |s| <= MAX_LABEL && IsAlnum(s[0]) && IsAlnum(s[|s| - 1]) && forall c | c in s :: IsLabelChar(c)
  }

  /** `host_valid` and `valid_hostname` of the companion.  The byte length is the
      length here because the labels admit ASCII characters only. */
  predicate HostValid(host: string) {
    host != [] && |host| <= MAX_HOST && forall part | part in Split(host, '.') :: ValidLabel(part)
  }

  predicate IsLowerAlnum(c: char) { IsLower(c) || IsDigit(c) }

  /** One label as the extension's regular expression spells it. */
  predicate DomainLabel(s: string) {
    s != [] && |s| <= 63 && IsLowerAlnum(s[0]) && IsLowerAlnum(s[|s| - 1])
    && forall c | c in s :: IsLowerAlnum(c) || c == '-'
  }

  /** `isDomain` of the extension. */
  predicate IsDomain(value: string) {
    |value| <= 253 && forall part | part in Split(value, '.') :: DomainLabel(part)
  }

  lemma {:induction false} CharsOfParts(s: string, c: char, x: char)
    requires x in s
    ensures x == c || exists p :: p in Split(s, c) && x in p
    decreases |s|
  {
    var n := IndexOf(s, c);
    IndexOfBounds(s, c);
    if n < |s| {
      assert s == s[..n] + [c] + s[n + 1..];
      if x in s[n + 1..] { CharsOfParts(s[n + 1..], c, x); }
    }
  }

  lemma HostChars(host: string)
    requires HostValid(host)
    ensures forall c | c in host :: IsHostChar(c)
    ensures Ascii(host)
  {
    forall c | c in host ensures IsHostChar(c) { CharsOfParts(host, '.', c); }
    forall i | 0 <= i < |host| ensures host[i] as int < 0x80 { assert host[i] in host; }
  }

  lemma IndexOfLower(s: string, c: char)
    requires !IsAlpha(c)
    ensures IndexOf(Lower(s), c) == IndexOf(s, c)
  {
    var n, t := IndexOf(s, c), Lower(s);
    IndexOfBounds(s, c);
    IndexOfBounds(t, c);
    forall x | x in t[..n] ensures x != c {
      var i :| 0 <= i < n && t[i] == x;
      assert s[..n][i] == s[i];
    }
    if n < |s| {
      IndexOfIs(t, c, n);
    } else {
      assert t[..n] == t;
    }
  }

  /** Lower-casing does not move the separators. */
  lemma {:induction false} SplitLower(s: string, c: char)
    requires !IsAlpha(c)
    ensures Split(Lower(s), c) == MapSeq(Split(s, c), Lower)
    decreases |s|
  {
    var n := IndexOf(s, c);
    IndexOfLower(s, c);
    if n < |s| {
      SplitLowerCons(s, c, n);
      SplitLower(s[n + 1..], c);
      MapSeqConcat([s[..n]], Split(s[n + 1..], c), Lower);
      MapOne(s[..n]);
    } else {
      MapOne(s);
    }
  }

  lemma MapOne(s: string)
    ensures MapSeq([s], Lower) == [Lower(s)]
  {
  }

  lemma SplitLowerCons(s: string, c: char, n: nat)
    requires !IsAlpha(c) && n == IndexOf(s, c) == IndexOf(Lower(s), c) < |s|
    ensures Split(s, c) == [s[..n]] + Split(s[n + 1..], c)
    ensures Split(Lower(s), c) == [Lower(s[..n])] + Split(Lower(s[n + 1..]), c)
  {
    LowerCut(s, n);
    SplitCons(s, c);
    SplitCons(Lower(s), c);
  }

  lemma LowerCut(s: string, n: nat)
    requires n < |s|
    ensures Lower(s)[..n] == Lower(s[..n]) && Lower(s)[n + 1..] == Lower(s[n + 1..])
  {
  }

  lemma SplitCons(s: string, c: char)
    requires IndexOf(s, c) < |s|
    ensures Split(s, c) == [s[..IndexOf(s, c)]] + Split(s[IndexOf(s, c) + 1..], c)
  {
  }

  lemma LowerLabel(s: string)
    requires ValidLabel(s)
    ensures DomainLabel(Lower(s)) && ValidLabel(Lower(s))
  {
    var t := Lower(s);
    forall i | 0 <= i < |t| ensures IsLowerAlnum(t[i]) || t[i] == '-' { assert s[i] in s; }
  }

  lemma LabelsAgree(s: string)
    ensures DomainLabel(Lower(s)) <==> ValidLabel(s)
  {
    if ValidLabel(s) { LowerLabel(s); }
    if DomainLabel(Lower(s)) {
      forall c | c in s ensures IsLabelChar(c) {
        var i :| 0 <= i < |s| && s[i] == c;
        assert Lower(s)[i] in Lower(s);
      }
    }
  }

  /** A hostname is valid for the companion exactly when it is, once lower-cased, a domain for the
      extension. */
  lemma HostsAgree(host: string)
    ensures HostValid(host) <==> IsDomain(Lower(host))
  {
    var parts, lowered := Split(host, '.'), Split(Lower(host), '.');
    SplitLower(host, '.');
    forall i: nat | i < |parts| ensures DomainLabel(lowered[i]) <==> ValidLabel(parts[i]) { LabelsAgree(parts[i]); }
    if HostValid(host) {
      forall part | part in lowered ensures DomainLabel(part) {
        var i: nat :| i < |lowered| && lowered[i] == part;
        assert parts[i] in parts;
      }
    }
    if IsDomain(Lower(host)) {
      forall part | part in parts ensures ValidLabel(part) {
        var i: nat :| i < |parts| && parts[i] == part;
        assert lowered[i] in lowered;
      }
      EmptyNoDomain(host);
    }
  }

  lemma EmptyNoDomain(host: string)
    requires IsDomain(Lower(host))
    ensures host != ""
  {
    assert Split("", '.') == [""] && "" in Split("", '.');
  }

  lemma LowerHostIsDomain(host: string)
    requires HostValid(host)
    ensures IsDomain(Lower(host)) && HostValid(Lower(host))
  {
    HostsAgree(host);
    HostsAgree(Lower(host));
    LowerAgain(host);
  }

  lemma LowerAgain(s: string)
    ensures Lower(Lower(s)) == Lower(s)
  {
  }

  /** `matchesDomain`: the host itself or a subdomain of the domain. */
  predicate MatchesDomain(host: string, domain: string) {
    host == domain || EndsWith(host, "." + domain)
  }

  /** The host or one of its label suffixes starting at position k. */
  predicate LabelStart(host: string, k: int) {
    0 <= k <= |host| && (k == 0 || host[k - 1] == '.')
  }

  lemma MatchesDomainIffSuffix(host: string, domain: string)
    ensures MatchesDomain(host, domain) <==> exists k :: LabelStart(host, k) && host[k..] == domain
  {
    if MatchesDomain(host, domain) {
      var k := |host| - |domain|;
      if host == domain {
        assert LabelStart(host, 0) && host[0..] == domain;
      } else {
        var tail := host[k - 1..];
        assert tail[0] == '.' && tail[1..] == domain == host[k..];
        assert LabelStart(host, k);
      }
    }
    forall k | LabelStart(host, k) && host[k..] == domain ensures MatchesDomain(host, domain) {
      if k > 0 { assert host[k - 1..] == "." + domain; }
    }
  }

  lemma MatchesDomainTransitive(host: string, middle: string, domain: string)
    requires MatchesDomain(host, middle) && MatchesDomain(middle, domain)
    ensures MatchesDomain(host, domain)
  {
    if host != middle && middle != domain {
      var tail := "." + domain;
      assert middle[|middle| - |tail|..] == tail;
      assert host[|host| - |middle|..] == middle by {
        var wide := "." + middle;
        assert host[|host| - |wide|..] == wide;
        assert host[|host| - |middle|..] == host[|host| - |wide|..][1..];
      }
      assert host[|host| - |tail|..] == host[|host| - |middle|..][|middle| - |tail|..];
    }
  }
}
