/** The restricted cosmetic selectors: one grammar, checked by a hand-written scanner in
    the companion and by a regular expression in the extension. */
module Selector {
  import opened Text

  const MAX_SELECTOR := 512

  // Regular expressions

  datatype Regex =
    | Empty
    | One(ok: char -> bool)
    | Cat(first: Regex, second: Regex)
    | Alt(left: Regex, right: Regex)
    | Star(body: Regex)

  predicate Cut(i: nat, k: int, j: nat) { i <= k <= j }
  predicate Past(i: nat, k: int, j: nat) { i < k <= j }

  /** The expression matches exactly s[i..j]. */
  ghost predicate Accepts(re: Regex, s: string, i: nat, j: nat)
    requires i <= j <= |s|
    decreases re, j - i
  {
    match re
    case Empty => i == j
    case One(ok) => j == i + 1 && ok(s[i])
    case Cat(a, b) => exists k :: Cut(i, k, j) && Accepts(a, s, i, k) && Accepts(b, s, k, j)
    case Alt(a, b) => Accepts(a, s, i, j) || Accepts(b, s, i, j)
    case Star(a) => i == j || exists k :: Past(i, k, j) && Accepts(a, s, i, k) && Accepts(re, s, k, j)
  }

  predicate TagChar(c: char) { IsAlnum(c) || c == '-' }
  predicate NameChar(c: char) { IsAlnum(c) || c == '_' || c == '-' }
  predicate NameStart(c: char) { IsAlpha(c) || c == '_' }
  predicate Mark(c: char) { c == '.' || c == '#' }
  predicate Dash(c: char) { c == '-' }

  ghost function Optional(re: Regex): Regex { Alt(Empty, re) }
  ghost function TagRegex(): Regex { Cat(One(IsAlpha), Star(One(TagChar))) }
  ghost function PlainStart(): Regex { Cat(Optional(One(Dash)), One(NameStart)) }
  ghost function DoubleDash(): Regex { Cat(One(Dash), One(Dash)) }
  ghost function StartRegex(): Regex { Alt(PlainStart(), DoubleDash()) }
  ghost function NameRegex(): Regex { Cat(StartRegex(), Star(One(NameChar))) }
  ghost function PartRegex(): Regex { Cat(One(Mark), NameRegex()) }

  /** `(?:[A-Za-z][A-Za-z0-9-]*)?(?:[.#](?:-?[A-Za-z_]|--)[A-Za-z0-9_-]*)*` */
  ghost function CompoundRegex(): Regex { Cat(Optional(TagRegex()), Star(PartRegex())) }

  // The grammar, read from left to right

  /** Where the longest run of characters that satisfy `ok` ends. */
  function RunEnd(s: string, i: nat, ok: char -> bool): (j: nat)
    requires i <= |s|
    ensures i <= j <= |s|
    decreases |s| - i
  {
    if i < |s| && ok(s[i]) then RunEnd(s, i + 1, ok) else i
  }

  function TagEnd(s: string): (j: nat)
    ensures j <= |s|
  {
    if s != "" && IsAlpha(s[0]) then RunEnd(s, 1, TagChar) else 0
  }

  /** Where a name's obligatory start ends, or i when there is none. */
  function StartEnd(s: string, i: nat): (j: nat)
    requires i <= |s|
    ensures i <= j <= |s|
  {
    if i == |s| then i
    else if s[i] == '-' then if i + 1 < |s| && (NameStart(s[i + 1]) || s[i + 1] == '-') then i + 2 else i
    else if NameStart(s[i]) then i + 1 else i
  }

  /** Where a class or ID ends, or i when there is none. */
  function PartEnd(s: string, i: nat): (j: nat)
    requires i <= |s|
    ensures i <= j <= |s|
  {
    if i == |s| || !Mark(s[i]) || StartEnd(s, i + 1) == i + 1 then i
    else RunEnd(s, StartEnd(s, i + 1), NameChar)
  }

  /** Only classes and IDs from i on. */
  predicate Parts(s: string, i: nat)
    requires i <= |s|
    decreases |s| - i
  {
    i == |s| || (PartEnd(s, i) > i && Parts(s, PartEnd(s, i)))
  }

  predicate Compound(s: string) {
    s != "" && Parts(s, TagEnd(s))
  }

  // The scanner

  /** Move an index over the characters that satisfy `ok`. */
  method Skip(s: string, start: nat, ok: char -> bool) returns (index: nat)
    requires start <= |s|
    ensures index == RunEnd(s, start, ok)
  {
    index := start;
    while index < |s| && ok(s[index])
      invariant start <= index <= |s|
      invariant RunEnd(s, start, ok) == RunEnd(s, index, ok)
    {
      index := index + 1;
    }
  }

  lemma PartsStep(s: string, i: nat)
    requires i < |s|
    ensures Parts(s, i) <==> PartEnd(s, i) > i && Parts(s, PartEnd(s, i))
    ensures PartEnd(s, i) > i <==> Mark(s[i]) && StartEnd(s, i + 1) > i + 1
  {
  }

  /** `valid_compound`. */
  method ValidCompound(s: string) returns (valid: bool)
    ensures valid <==> Compound(s) && Utf8Len(s) <= MAX_SELECTOR
  {
    if s == "" || Utf8Len(s) > MAX_SELECTOR {
      return false;
    }
    var index := 0;
    if IsAlpha(s[0]) {
      index := Skip(s, 1, TagChar);
    }
    while index < |s|
      invariant index <= |s|
      invariant Parts(s, TagEnd(s)) <==> Parts(s, index)
    {
      PartsStep(s, index);
      if s[index] != '.' && s[index] != '#' {
        return false;
      }
      var start := index + 1;
      if start == |s| {
        return false;
      }
      if s[start] == '-' {
        start := start + 1;
        if start == |s| || !(IsAlpha(s[start]) || s[start] == '_' || s[start] == '-') {
          return false;
        }
      } else if !(IsAlpha(s[start]) || s[start] == '_') {
        return false;
      }
      start := start + 1;
      index := Skip(s, start, NameChar);
    }
    return true;
  }

  // The scanner's grammar is the regular expression

  predicate All(s: string, i: nat, j: nat, ok: char -> bool)
    requires i <= j <= |s|
  {
    forall k | i <= k < j :: ok(s[k])
  }

  lemma {:induction false} RunEndIs(s: string, i: nat, j: nat, ok: char -> bool)
    requires i <= j <= |s|
    ensures RunEnd(s, i, ok) == j <==> All(s, i, j, ok) && (j == |s| || !ok(s[j]))
    decreases j - i
  {
    if i < j && ok(s[i]) { RunEndIs(s, i + 1, j, ok); }
  }

  lemma {:induction false} StarOfChars(ok: char -> bool, s: string, i: nat, j: nat)
    requires i <= j <= |s|
    ensures Accepts(Star(One(ok)), s, i, j) <==> All(s, i, j, ok)
    decreases j - i
  {
    if i < j {
      StarOfChars(ok, s, i + 1, j);
      if Accepts(Star(One(ok)), s, i, j) {
        var k :| Past(i, k, j) && Accepts(One(ok), s, i, k) && Accepts(Star(One(ok)), s, k, j);
        assert k == i + 1;
      } else {
        assert Past(i, i + 1, j);
        assert !(Accepts(One(ok), s, i, i + 1) && Accepts(Star(One(ok)), s, i + 1, j));
      }
    }
  }

  lemma TagMeaning(s: string, i: nat, j: nat)
    requires i <= j <= |s|
    ensures Accepts(TagRegex(), s, i, j) <==> i < j && IsAlpha(s[i]) && All(s, i + 1, j, TagChar)
  {
    if i < j { StarOfChars(TagChar, s, i + 1, j); }
    if Accepts(TagRegex(), s, i, j) {
      var k :| Cut(i, k, j) && Accepts(One(IsAlpha), s, i, k) && Accepts(Star(One(TagChar)), s, k, j);
      assert k == i + 1;
    } else if i < j {
      assert Cut(i, i + 1, j);
      assert !(Accepts(One(IsAlpha), s, i, i + 1) && Accepts(Star(One(TagChar)), s, i + 1, j));
    }
  }

  lemma PlainStartMeaning(s: string, i: nat, j: nat)
    requires i <= j <= |s|
    ensures Accepts(PlainStart(), s, i, j)
            <==> (j == i + 1 && NameStart(s[i])) || (j == i + 2 && s[i] == '-' && NameStart(s[i + 1]))
  {
    if Accepts(PlainStart(), s, i, j) {
      var k :| Cut(i, k, j) && Accepts(Optional(One(Dash)), s, i, k) && Accepts(One(NameStart), s, k, j);
      assert Accepts(Empty, s, i, k) || Accepts(One(Dash), s, i, k);
    }
    if j == i + 1 && NameStart(s[i]) {
      assert Accepts(Empty, s, i, i);
      assert Cut(i, i, j) && Accepts(Optional(One(Dash)), s, i, i) && Accepts(One(NameStart), s, i, j);
    }
    if j == i + 2 && s[i] == '-' && NameStart(s[i + 1]) {
      assert Accepts(One(Dash), s, i, i + 1);
      assert Cut(i, i + 1, j) && Accepts(Optional(One(Dash)), s, i, i + 1) && Accepts(One(NameStart), s, i + 1, j);
    }
  }

  lemma StartMeaning(s: string, i: nat, j: nat)
    requires i <= j <= |s|
    ensures Accepts(StartRegex(), s, i, j) <==> i < j && StartEnd(s, i) == j
  {
    PlainStartMeaning(s, i, j);
    assert Accepts(DoubleDash(), s, i, j) <==> j == i + 2 && s[i] == '-' && s[i + 1] == '-' by {
      if Accepts(DoubleDash(), s, i, j) {
        var k :| Cut(i, k, j) && Accepts(One(Dash), s, i, k) && Accepts(One(Dash), s, k, j);
        assert k == i + 1;
      } else if j == i + 2 {
        assert Cut(i, i + 1, j);
        assert !(Accepts(One(Dash), s, i, i + 1) && Accepts(One(Dash), s, i + 1, j));
      }
    }
  }

  lemma NameMeaning(s: string, i: nat, j: nat)
    requires i <= j <= |s|
    ensures Accepts(NameRegex(), s, i, j)
            <==> i < StartEnd(s, i) <= j && All(s, StartEnd(s, i), j, NameChar)
  {
    var start := StartEnd(s, i);
    if Accepts(NameRegex(), s, i, j) {
      var k :| Cut(i, k, j) && Accepts(StartRegex(), s, i, k) && Accepts(Star(One(NameChar)), s, k, j);
      StartMeaning(s, i, k);
      StarOfChars(NameChar, s, k, j);
    } else if i < start <= j {
      StartMeaning(s, i, start);
      StarOfChars(NameChar, s, start, j);
      assert Cut(i, start, j);
      assert !(Accepts(StartRegex(), s, i, start) && Accepts(Star(One(NameChar)), s, start, j));
    }
  }

  lemma PartMeaning(s: string, i: nat, j: nat)
    requires i <= j <= |s|
    ensures Accepts(PartRegex(), s, i, j)
            <==> i < j && Mark(s[i]) && i + 1 < StartEnd(s, i + 1) <= j && All(s, StartEnd(s, i + 1), j, NameChar)
  {
    if i < j { NameMeaning(s, i + 1, j); }
    if Accepts(PartRegex(), s, i, j) {
      var k :| Cut(i, k, j) && Accepts(One(Mark), s, i, k) && Accepts(NameRegex(), s, k, j);
      assert k == i + 1;
    } else if i < j {
      assert Cut(i, i + 1, j);
      assert !(Accepts(One(Mark), s, i, i + 1) && Accepts(NameRegex(), s, i + 1, j));
    }
  }

  /** A matched part followed by more parts, or by nothing, is the longest possible one. */
  lemma PartIsGreedy(s: string, i: nat, k: nat)
    requires i <= k <= |s| && Accepts(PartRegex(), s, i, k)
    requires k == |s| || Mark(s[k])
    ensures PartEnd(s, i) == k
  {
    PartMeaning(s, i, k);
    RunEndIs(s, StartEnd(s, i + 1), k, NameChar);
  }

  lemma {:induction false} PartsMeaning(s: string, i: nat)
    requires i <= |s|
    ensures Accepts(Star(PartRegex()), s, i, |s|) <==> Parts(s, i)
    decreases |s| - i
  {
    if i < |s| {
      if Accepts(Star(PartRegex()), s, i, |s|) {
        var k :| Past(i, k, |s|) && Accepts(PartRegex(), s, i, k) && Accepts(Star(PartRegex()), s, k, |s|);
        if k < |s| {
          var l :| Past(k, l, |s|) && Accepts(PartRegex(), s, k, l) && Accepts(Star(PartRegex()), s, l, |s|);
          PartMeaning(s, k, l);
        }
        PartIsGreedy(s, i, k);
        PartsMeaning(s, k);
      }
      if Parts(s, i) {
        var k := PartEnd(s, i);
        RunEndIs(s, StartEnd(s, i + 1), k, NameChar);
        PartMeaning(s, i, k);
        PartsMeaning(s, k);
        assert Past(i, k, |s|) && Accepts(PartRegex(), s, i, k) && Accepts(Star(PartRegex()), s, k, |s|);
      }
    }
  }

  lemma PartsBegin(s: string, i: nat)
    requires i < |s| && Parts(s, i)
    ensures Mark(s[i])
  {
  }

  /** The scanner's grammar accepts a nonempty text exactly when the whole text matches the
      extension's regular expression. */
  lemma CompoundIsRegex(s: string)
    requires s != ""
    ensures Accepts(CompoundRegex(), s, 0, |s|) <==> Compound(s)
  {
    if Accepts(CompoundRegex(), s, 0, |s|) {
      var k :| Cut(0, k, |s|) && Accepts(Optional(TagRegex()), s, 0, k) && Accepts(Star(PartRegex()), s, k, |s|);
      assert Accepts(Empty, s, 0, k) || Accepts(TagRegex(), s, 0, k);
      PartsMeaning(s, k);
      if k < |s| { PartsBegin(s, k); }
      TagMeaning(s, 0, k);
      if k > 0 { RunEndIs(s, 1, k, TagChar); }
      assert TagEnd(s) == k;
    }
    if Compound(s) {
      var k := TagEnd(s);
      if k > 0 { RunEndIs(s, 1, k, TagChar); }
      TagMeaning(s, 0, k);
      assert k == 0 ==> Accepts(Empty, s, 0, k);
      assert Accepts(Optional(TagRegex()), s, 0, k);
      PartsMeaning(s, k);
      assert Cut(0, k, |s|);
    }
  }

  predicate SelectorChar(c: char) { NameChar(c) || Mark(c) }

  lemma {:induction false} PartsChars(s: string, i: nat)
    requires i <= |s| && Parts(s, i)
    ensures forall k | i <= k < |s| :: SelectorChar(s[k])
    decreases |s| - i
  {
    if i < |s| {
      var j := PartEnd(s, i);
      RunEndIs(s, StartEnd(s, i + 1), j, NameChar);
      PartsChars(s, j);
    }
  }

  lemma CompoundChars(s: string)
    requires Compound(s)
    ensures forall k | 0 <= k < |s| :: SelectorChar(s[k])
  {
    var k := TagEnd(s);
    if k > 0 { RunEndIs(s, 1, k, TagChar); }
    PartsChars(s, k);
  }

  lemma CompoundAscii(s: string)
    requires Compound(s)
    ensures Ascii(s) && ':' !in s
  {
    CompoundChars(s);
  }

  // Whole selectors: a compound, or a compound with one direct-child check

  const CHILD_CHECK := ":has(>"

  datatype Shape = Plain | Checked(parent: string, child: string) | Broken

  function TrimSpaces(s: string): (r: string)
    ensures |r| <= |s|
  {
    TrimEndChar(TrimStartChar(s, ' '), ' ')
  }

  /** How the companion cuts a selector: `split_once`, `strip_suffix`, `trim_matches`. */
  function ShapeOf(s: string): Shape { ShapeOfCut(SplitOnce(s, CHILD_CHECK)) }

  function ShapeOfCut(found: Option<(string, string)>): Shape {
    match found
    case None => Plain
    case Some(cut) =>
      if EndsWith(cut.1, ")") then Checked(cut.0, TrimSpaces(cut.1[..|cut.1| - 1])) else Broken
  }

  /** How the extension cuts it: `indexOf`, `endsWith`, `slice` and a replacement. */
  function SlicedShape(value: string): Shape { SlicedAt(value, Find(value, CHILD_CHECK), |CHILD_CHECK|) }

  function SlicedAt(value: string, found: Option<nat>, length: nat): Shape
    requires found.Some? ==> found.value <= |value|
  {
    match found
    case None => Plain
    case Some(index) =>
      if !EndsWith(value, ")") then Broken else
        Checked(value[..index], TrimSpaces(Slice(value, index + length, |value| - 1)))
  }

  /** JavaScript's `slice` for nonnegative bounds. */
  function Slice(s: string, lo: nat, hi: int): string {
    if lo <= hi <= |s| then s[lo..hi] else ""
  }

  /** Both programs cut the same child off after the check. */
  lemma SameTail(s: string, check: string, i: nat)
    requires OccursAt(s, check, i) && check != "" && check[|check| - 1] != ')'
    ensures var lo := i + |check|;
            lo <= |s| && (EndsWith(s, ")") <==> EndsWith(s[lo..], ")"))
            && (EndsWith(s, ")") ==> Slice(s, lo, |s| - 1) == s[lo..][..|s| - lo - 1])
  {
    var lo := i + |check|;
    assert s[lo - 1] == s[i..][..|check|][|check| - 1];
    LastChar(s, ')');
    LastChar(s[lo..], ')');
    assert lo < |s| ==> s[lo..][|s| - lo - 1] == s[|s| - 1];
  }

  lemma LastChar(s: string, c: char)
    ensures EndsWith(s, [c]) <==> s != "" && s[|s| - 1] == c
  {
  }

  lemma CheckEnds()
    ensures CHILD_CHECK != "" && CHILD_CHECK[|CHILD_CHECK| - 1] != ')'
  {
  }

  lemma SplitAtFind(s: string, sep: string)
    ensures match Find(s, sep)
            case None => SplitOnce(s, sep) == None
            case Some(i) => OccursAt(s, sep, i) && SplitOnce(s, sep) == Some((s[..i], s[i + |sep|..]))
  {
    FindLeast(s, sep);
  }

  lemma CutAgrees(s: string, lo: nat, parent: string, tail: string)
    requires lo <= |s| && tail == s[lo..] && (EndsWith(s, ")") <==> EndsWith(tail, ")"))
    requires EndsWith(s, ")") ==> Slice(s, lo, |s| - 1) == tail[..|tail| - 1]
    ensures ShapeOfCut(Some((parent, tail)))
            == if EndsWith(s, ")") then Checked(parent, TrimSpaces(Slice(s, lo, |s| - 1))) else Broken
  {
  }

  lemma CutsAgree(s: string, check: string)
    requires check != "" && check[|check| - 1] != ')'
    ensures ShapeOfCut(SplitOnce(s, check)) == SlicedAt(s, Find(s, check), |check|)
  {
    SplitAtFind(s, check);
    if Find(s, check).Some? {
      var i := Find(s, check).value;
      SameTail(s, check, i);
      CutAgrees(s, i + |check|, s[..i], s[i + |check|..]);
    }
  }

  lemma ShapesAgree(s: string)
    ensures ShapeOf(s) == SlicedShape(s)
  {
    CheckEnds();
    CutsAgree(s, CHILD_CHECK);
  }

  predicate Scanned(s: string) { Compound(s) && Utf8Len(s) <= MAX_SELECTOR }

  predicate HasMark(s: string) { exists c | c in s :: Mark(c) }

  /** `valid_selector`. */
  predicate ValidSelector(s: string) {
    && s != "" && Utf8Len(s) <= MAX_SELECTOR
    && match ShapeOf(s)
       case Plain => Scanned(s)
       case Checked(parent, child) => Scanned(parent) && HasMark(child) && Scanned(child)
       case Broken => false
  }

  method ScanSelector(s: string) returns (valid: bool)
    ensures valid <==> ValidSelector(s)
  {
    if s == "" || Utf8Len(s) > MAX_SELECTOR {
      return false;
    }
    match ShapeOf(s) {
      case Plain => valid := ValidCompound(s);
      case Checked(parent, child) =>
        valid := ValidCompound(parent);
        if valid {
          valid := ValidCompound(child);
          valid := valid && HasMark(child);
        }
      case Broken => valid := false;
    }
  }

  ghost predicate WholeMatch(text: string) {
    |text| > 0 && Accepts(CompoundRegex(), text, 0, |text|)
  }

  /** `isSafeSelector` of the extension. */
  ghost predicate SafeSelector(value: string) {
    && value != "" && Utf16Len(value) <= 512
    && match SlicedShape(value)
       case Plain => WholeMatch(value)
       case Checked(parent, child) => WholeMatch(parent) && HasMark(child) && WholeMatch(child)
       case Broken => false
  }

  lemma WholeMatchIsCompound(s: string)
    ensures WholeMatch(s) <==> Compound(s)
    ensures Compound(s) ==> Ascii(s)
  {
    if s != "" { CompoundIsRegex(s); }
    if Compound(s) { CompoundAscii(s); }
  }

  lemma AsciiJoin(a: string, b: string, c: string, d: string)
    requires Ascii(a) && Ascii(b) && Ascii(c) && Ascii(d)
    ensures Ascii(a + b + (c + d))
  {
  }

  lemma ChildCheckAscii()
    ensures Ascii(CHILD_CHECK) && Ascii(")")
  {
  }

  lemma TrimSpacesAscii(s: string)
    requires Ascii(TrimSpaces(s))
    ensures Ascii(s)
  {
    var t := TrimStartChar(s, ' ');
    var r := TrimEndChar(t, ' ');
    TrimStartCharIs(s, ' ');
    TrimEndCharIs(t, ' ');
    forall i | 0 <= i < |t| ensures t[i] as int < 0x80 {
      if i < |r| { assert r[i] == t[..|r|][i]; }
    }
    forall i | 0 <= i < |s| ensures s[i] as int < 0x80 {
      if i >= |s| - |t| { assert t[i - (|s| - |t|)] == s[|s| - |t|..][i - (|s| - |t|)]; }
    }
  }

  /** With ASCII parts the whole selector is ASCII, and no shorter than its parts. */
  lemma CheckedAscii(s: string, parent: string, child: string)
    requires ShapeOf(s) == Checked(parent, child) && Ascii(parent) && Ascii(child)
    ensures Ascii(s) && |parent| + |CHILD_CHECK| + |child| + 1 <= |s|
  {
    SplitOnceJoins(s, CHILD_CHECK);
    var tail := SplitOnce(s, CHILD_CHECK).value.1;
    var inner := tail[..|tail| - 1];
    assert s == parent + CHILD_CHECK + tail;
    assert tail == inner + ")";
    TrimSpacesAscii(inner);
    ChildCheckAscii();
    AsciiJoin(parent, CHILD_CHECK, inner, ")");
  }

  lemma PlainAgrees(s: string)
    requires ShapeOf(s) == SlicedShape(s) && ShapeOf(s).Plain?
    ensures ValidSelector(s) <==> SafeSelector(s)
  {
    WholeMatchIsCompound(s);
  }

  /** Both length limits mean the same once the parts are compounds. */
  lemma CheckedLengths(s: string, parent: string, child: string)
    requires ShapeOf(s) == Checked(parent, child) && Compound(parent) && Compound(child)
    ensures Utf8Len(s) == Utf16Len(s) && Utf8Len(parent) <= Utf8Len(s) && Utf8Len(child) <= Utf8Len(s)
  {
    CompoundAscii(parent);
    CompoundAscii(child);
    CheckedAscii(s, parent, child);
  }

  lemma CheckedValid(s: string, parent: string, child: string)
    requires ShapeOf(s) == Checked(parent, child)
    ensures ValidSelector(s) <==>
              s != "" && Utf8Len(s) <= MAX_SELECTOR && Scanned(parent) && HasMark(child) && Scanned(child)
  {
  }

  lemma CheckedSafe(s: string, parent: string, child: string)
    requires SlicedShape(s) == Checked(parent, child)
    ensures SafeSelector(s) <==>
              s != "" && Utf16Len(s) <= 512 && Compound(parent) && HasMark(child) && Compound(child)
  {
    WholeMatchIsCompound(parent);
    WholeMatchIsCompound(child);
  }

  lemma CheckedAgrees(s: string, parent: string, child: string)
    requires ShapeOf(s) == SlicedShape(s) && ShapeOf(s) == Checked(parent, child)
    ensures ValidSelector(s) <==> SafeSelector(s)
  {
    CheckedValid(s, parent, child);
    CheckedSafe(s, parent, child);
    if Compound(parent) && Compound(child) { CheckedLengths(s, parent, child); }
  }

  lemma BrokenAgrees(s: string)
    requires ShapeOf(s) == SlicedShape(s) && ShapeOf(s).Broken?
    ensures ValidSelector(s) <==> SafeSelector(s)
  {
  }

  /** The companion's scanner and the extension's checker accept exactly the same strings,
      although one limits UTF-8 bytes and the other UTF-16 units. */
  lemma CheckersAgree(s: string)
    ensures ValidSelector(s) <==> SafeSelector(s)
  {
    ShapesAgree(s);
    match ShapeOf(s) {
      case Plain => PlainAgrees(s);
      case Checked(parent, child) => CheckedAgrees(s, parent, child);
      case Broken => BrokenAgrees(s);
    }
  }

  // Canonical form

  /** `canonical_selector`. */
  function Canonical(s: string): string {
    match ShapeOf(s)
    case Checked(parent, child) => parent + CHILD_CHECK + (child + ")")
    case _ => s
  }

  lemma TrimmedTwice(s: string)
    ensures TrimSpaces(TrimSpaces(s)) == TrimSpaces(s)
  {
    var r := TrimSpaces(s);
    if r != "" {
      var t := TrimStartChar(s, ' ');
      TrimStartCharIs(s, ' ');
      TrimEndCharIs(t, ' ');
      assert r[0] == t[..|r|][0];
      assert TrimStartChar(r, ' ') == r;
      assert TrimEndChar(r, ' ') == r;
    }
  }

  lemma ShapeOfChecked(parent: string, child: string)
    requires ':' !in parent && TrimSpaces(child) == child
    ensures ShapeOf(parent + CHILD_CHECK + (child + ")")) == Checked(parent, child)
  {
    var tail := child + ")";
    SplitOnceAt(parent, CHILD_CHECK, tail);
    assert tail[|child|..] == ")" && tail[..|child|] == child;
  }

  lemma ShapeTrimmed(s: string)
    requires ShapeOf(s).Checked?
    ensures TrimSpaces(ShapeOf(s).child) == ShapeOf(s).child
  {
    var tail := SplitOnce(s, CHILD_CHECK).value.1;
    TrimmedTwice(tail[..|tail| - 1]);
  }

  lemma CanonicalShape(s: string)
    requires ValidSelector(s)
    ensures ShapeOf(Canonical(s)) == ShapeOf(s)
    ensures Utf8Len(Canonical(s)) <= Utf8Len(s)
  {
    match ShapeOf(s) {
      case Plain =>
      case Checked(parent, child) =>
        CompoundAscii(parent);
        CompoundAscii(child);
        CheckedAscii(s, parent, child);
        ShapeTrimmed(s);
        ShapeOfChecked(parent, child);
        ChildCheckAscii();
        AsciiJoin(parent, CHILD_CHECK, child, ")");
    }
  }

  /** Canonical selectors stay valid, and canonicalising them again changes nothing. */
  lemma CanonicalValid(s: string)
    requires ValidSelector(s)
    ensures ValidSelector(Canonical(s))
    ensures Canonical(Canonical(s)) == Canonical(s)
  {
    CanonicalShape(s);
    if ShapeOf(s).Plain? { assert Canonical(s) == s; }
  }

  /** Two selectors are equal, or are child checks with the same parent and the same child,
      and so differ only in the spaces around that child. */
  predicate SameButSpaces(a: string, b: string) {
    a == b || (ShapeOf(a).Checked? && ShapeOf(a) == ShapeOf(b))
  }

  /** Canonical forms identify exactly the selectors that differ only in those spaces. */
  lemma CanonicalIdentifies(a: string, b: string)
    requires ValidSelector(a) && ValidSelector(b)
    ensures Canonical(a) == Canonical(b) <==> SameButSpaces(a, b)
  {
    CanonicalShape(a);
    CanonicalShape(b);
  }
}
