/** String operations shared by the list compilers.

    A string is a sequence of Unicode scalar values.  Rust measures text in UTF-8
    bytes and JavaScript in UTF-16 code units, so both lengths are defined here. */
module Text {

  datatype Option<+T> = None | Some(value: T)

  function MapSeq<A, B>(s: seq<A>, f: A -> B): (r: seq<B>)
    ensures |r| == |s|
  {
    seq(|s|, i requires 0 <= i < |s| => f(s[i]))
  }

  lemma MapSeqConcat<A, B>(s: seq<A>, t: seq<A>, f: A -> B)
    ensures MapSeq(s + t, f) == MapSeq(s, f) + MapSeq(t, f)
  {
  }

  lemma SubsetSize<T>(a: set<T>, b: set<T>)
    requires a <= b
    ensures |a| <= |b|
  {
    assert b == a + (b - a);
  }

  function Utf8Width(c: char): nat {
    if c as int < 0x80 then 1 else if c as int < 0x800 then 2 else if c as int < 0x10000 then 3 else 4
  }

  predicate Ascii(s: string) {
    forall i | 0 <= i < |s| :: s[i] as int < 0x80
  }

  /** The length Rust's `str::len` reports. */
  function Utf8Len(s: string): (n: nat)
    ensures |s| <= n
    ensures Ascii(s) ==> n == |s|
  {
    if s == [] then 0 else
      assert Ascii(s) ==> Ascii(s[1..]);
      Utf8Width(s[0]) + Utf8Len(s[1..])
  }

  /** The length JavaScript's `length` reports. */
  function Utf16Len(s: string): (n: nat)
    ensures |s| <= n
    ensures Ascii(s) ==> n == |s|
  {
    if s == [] then 0 else
      assert Ascii(s) ==> Ascii(s[1..]);
      (if s[0] as int < 0x10000 then 1 else 2) + Utf16Len(s[1..])
  }

  lemma {:induction false} Utf8LenConcat(a: string, b: string)
    ensures Utf8Len(a + b) == Utf8Len(a) + Utf8Len(b)
  {
    if a == [] {
      assert a + b == b;
    } else {
      assert (a + b)[1..] == a[1..] + b;
      Utf8LenConcat(a[1..], b);
    }
  }

  /** `truncate_utf8`: the longest start of at most `limit` bytes. */
  function Truncate(text: string, limit: nat): (r: string)
    ensures StartsWith(text, r) && Utf8Len(r) <= limit
    ensures Utf8Len(text) <= limit ==> r == text
  {
    if text == "" || Utf8Width(text[0]) > limit then ""
    else
      var rest := Truncate(text[1..], limit - Utf8Width(text[0]));
      assert ([text[0]] + rest)[1..] == rest && text[..|rest| + 1] == [text[0]] + text[1..][..|rest|];
      [text[0]] + rest
  }

  predicate IsUpper(c: char) { 'A' <= c <= 'Z' }
  predicate IsLower(c: char) { 'a' <= c <= 'z' }
  predicate IsDigit(c: char) { '0' <= c <= '9' }
  predicate IsAlpha(c: char) { IsUpper(c) || IsLower(c) }
  predicate IsAlnum(c: char) { IsAlpha(c) || IsDigit(c) }

  function LowerChar(c: char): char {
    if IsUpper(c) then (c as int + 32) as char else c
  }

  /** `to_ascii_lowercase`. */
  function Lower(s: string): (r: string)
    ensures |r| == |s|
    ensures forall i | 0 <= i < |s| :: r[i] == LowerChar(s[i])
  {
    seq(|s|, i requires 0 <= i < |s| => LowerChar(s[i]))
  }

  predicate StartsWith(s: string, prefix: string) {
    |prefix| <= |s| && s[..|prefix|] == prefix
  }

  predicate EndsWith(s: string, suffix: string) {
    |suffix| <= |s| && s[|s| - |suffix|..] == suffix
  }

  /** `strip_prefix(prefix).unwrap_or(s)`. */
  function StripPrefix(s: string, prefix: string): string {
    if StartsWith(s, prefix) then s[|prefix|..] else s
  }

  /** Position of the first occurrence of `sub`. */
  function Find(s: string, sub: string): (r: Option<nat>)
    ensures r.Some? ==> r.value + |sub| <= |s|
  {
    if StartsWith(s, sub) then Some(0)
    else if s == [] then None
    else match Find(s[1..], sub) case None => None case Some(i) => Some(i + 1)
  }

  predicate OccursAt(s: string, sub: string, i: int) {
    0 <= i <= |s| && StartsWith(s[i..], sub)
  }

  /** `Find` returns the least position at which `sub` occurs. */
  lemma {:induction false} FindLeast(s: string, sub: string)
    ensures Find(s, sub).Some? ==> OccursAt(s, sub, Find(s, sub).value)
    ensures forall j :: OccursAt(s, sub, j) ==> Find(s, sub).Some? && Find(s, sub).value <= j
  {
    assert s[0..] == s;
    if !StartsWith(s, sub) && s != [] {
      FindLeast(s[1..], sub);
      forall j | 1 <= j <= |s| ensures OccursAt(s, sub, j) <==> OccursAt(s[1..], sub, j - 1) {
        assert s[j..] == s[1..][j - 1..];
      }
    }
  }

  lemma FindIs(s: string, sub: string, i: nat)
    requires OccursAt(s, sub, i) && forall j | 0 <= j < i :: !OccursAt(s, sub, j)
    ensures Find(s, sub) == Some(i)
  {
    FindLeast(s, sub);
    assert OccursAt(s, sub, Find(s, sub).value);
  }

  predicate Contains(s: string, sub: string) {
    Find(s, sub).Some?
  }

  /** `split_once(sep)`. */
  function SplitOnce(s: string, sep: string): (r: Option<(string, string)>)
    ensures r.Some? ==> |r.value.0| + |sep| + |r.value.1| == |s|
  {
    match Find(s, sep)
    case None => None
    case Some(i) => Some((s[..i], s[i + |sep|..]))
  }

  lemma CutJoins(s: string, i: nat, n: nat)
    requires i + n <= |s|
    ensures s[..i] + s[i..i + n] + s[i + n..] == s
  {
  }

  lemma OccursSlice(s: string, sub: string, i: nat)
    requires OccursAt(s, sub, i)
    ensures i + |sub| <= |s| && s[i..i + |sub|] == sub
  {
    assert s[i..][..|sub|] == s[i..i + |sub|];
  }

  lemma SplitOnceJoins(s: string, sep: string)
    requires SplitOnce(s, sep).Some?
    ensures s == SplitOnce(s, sep).value.0 + sep + SplitOnce(s, sep).value.1
  {
    FindLeast(s, sep);
    var i := Find(s, sep).value;
    OccursSlice(s, sep, i);
    CutJoins(s, i, |sep|);
  }

  lemma ContainedChars(s: string, sub: string)
    requires Contains(s, sub)
    ensures forall c | c in sub :: c in s
  {
    FindLeast(s, sub);
    var i := Find(s, sub).value;
    OccursSlice(s, sub, i);
    forall c | c in sub ensures c in s {
      var k :| 0 <= k < |sub| && sub[k] == c;
      assert s[i + k] == s[i..i + |sub|][k];
    }
  }

  lemma NotContained(s: string, sub: string, c: char)
    requires c in sub && c !in s
    ensures !Contains(s, sub) && SplitOnce(s, sub) == None
  {
    if Contains(s, sub) { ContainedChars(s, sub); }
  }

  /** A separator whose first character does not occur before it is found there. */
  lemma SplitOnceAt(head: string, sep: string, tail: string)
    requires sep != "" && sep[0] !in head
    ensures SplitOnce(head + sep + tail, sep) == Some((head, tail))
  {
    var s, n := head + sep + tail, |head|;
    assert s[n..] == sep + tail && s[n..][..|sep|] == sep;
    forall j | 0 <= j < n ensures !OccursAt(s, sep, j) {
      var t := s[j..];
      assert t[0] == head[j] && head[j] in head;
      assert t[..|sep|][0] == t[0];
    }
    FindIs(s, sep, n);
    assert s[..n] == head && s[n + |sep|..] == tail;
  }

  /** Number of characters before the first `c`, or the whole length. */
  function IndexOf(s: string, c: char): (n: nat)
    ensures n <= |s|
  {
    if s == [] || s[0] == c then 0 else
      var n := IndexOf(s[1..], c) + 1;
      n
  }

  lemma {:induction false} IndexOfBounds(s: string, c: char)
    ensures c !in s[..IndexOf(s, c)]
    ensures IndexOf(s, c) < |s| ==> s[IndexOf(s, c)] == c
    ensures IndexOf(s, c) < |s| <==> c in s
  {
    if s != [] && s[0] != c {
      IndexOfBounds(s[1..], c);
      var n := IndexOf(s, c);
      assert s[..n] == [s[0]] + s[1..][..n - 1];
      assert s == [s[0]] + s[1..];
    }
  }

  lemma {:induction false} IndexOfFirst(s: string, c: char, k: nat)
    requires k < |s| && s[k] == c
    ensures IndexOf(s, c) <= k
  {
    if s[0] != c { IndexOfFirst(s[1..], c, k - 1); }
  }

  lemma {:induction false} IndexOfIs(s: string, c: char, k: nat)
    requires k < |s| && s[k] == c && c !in s[..k]
    ensures IndexOf(s, c) == k
  {
    if k > 0 {
      assert s[..k][0] == s[0];
      assert s[1..][..k - 1] == s[..k][1..];
      IndexOfIs(s[1..], c, k - 1);
    }
  }

  /** `split(c)`. */
  function Split(s: string, c: char): (parts: seq<string>)
    ensures |parts| > 0
    decreases |s|
  {
    var n := IndexOf(s, c);
    if n == |s| then
      assert s[..n] == s;
      [s]
    else
      [s[..n]] + Split(s[n + 1..], c)
  }

  lemma {:induction false} PartOf(s: string, c: char, part: string)
    requires part in Split(s, c)
    ensures c !in part
    ensures |part| <= |s|
    ensures forall x | x in part :: x in s
    decreases |s|
  {
    var n := IndexOf(s, c);
    IndexOfBounds(s, c);
    if n < |s| {
      if part != s[..n] { PartOf(s[n + 1..], c, part); }
    }
  }

  /** `join(c)`. */
  function Join(parts: seq<string>, c: char): string {
    if parts == [] then []
    else if |parts| == 1 then parts[0]
    else parts[0] + [c] + Join(parts[1..], c)
  }

  lemma {:induction false} SplitJoin(parts: seq<string>, c: char)
    requires parts != []
    requires forall p | p in parts :: c !in p
    ensures Split(Join(parts, c), c) == parts
    decreases |parts|
  {
    var s := Join(parts, c);
    var head := parts[0];
    if |parts| == 1 {
      assert c !in s;
      IndexOfBounds(s, c);
    } else {
      var rest := Join(parts[1..], c);
      assert s == head + [c] + rest;
      assert s[..|head|] == head && s[|head| + 1..] == rest;
      IndexOfIs(s, c, |head|);
      SplitJoin(parts[1..], c);
      assert parts == [head] + parts[1..];
    }
  }

  lemma SplitWhole(s: string, c: char)
    requires c !in s
    ensures Split(s, c) == [s]
  {
    IndexOfBounds(s, c);
  }

  /** Unicode White_Space, the characters `trim` removes. */
  predicate IsWhitespace(c: char) {
    var n := c as int;
    0x09 <= n <= 0x0D || n == 0x20 || n == 0x85 || n == 0xA0 || n == 0x1680 || 0x2000 <= n <= 0x200A
    || n == 0x2028 || n == 0x2029 || n == 0x202F || n == 0x205F || n == 0x3000
  }

  function TrimStart(s: string): (r: string)
    ensures |r| <= |s|
    ensures Utf8Len(r) <= Utf8Len(s)
  {
    if s != [] && IsWhitespace(s[0]) then
      var r := TrimStart(s[1..]);
      r
    else s
  }

  function TrimEnd(s: string): (r: string)
    ensures |r| <= |s|
    ensures Utf8Len(r) <= Utf8Len(s)
  {
    if s != [] && IsWhitespace(s[|s| - 1]) then
      var t := s[..|s| - 1];
      assert Utf8Len(s) == Utf8Len(t) + Utf8Len([s[|s| - 1]]) by {
        assert s == t + [s[|s| - 1]];
        Utf8LenConcat(t, [s[|s| - 1]]);
      }
      TrimEnd(t)
    else s
  }

  /** `trim`. */
  function Trim(s: string): (r: string)
    ensures Utf8Len(r) <= Utf8Len(s)
  {
    TrimEnd(TrimStart(s))
  }

  predicate AllSpace(s: string) { forall c | c in s :: IsWhitespace(c) }

  lemma {:induction false} TrimStartIs(s: string)
    ensures var n := |s| - |TrimStart(s)|; s[n..] == TrimStart(s) && forall i | 0 <= i < n :: IsWhitespace(s[i])
    ensures TrimStart(s) == "" || !IsWhitespace(TrimStart(s)[0])
  {
    if s != [] && IsWhitespace(s[0]) {
      TrimStartIs(s[1..]);
      assert s[|s| - |TrimStart(s)|..] == s[1..][|s[1..]| - |TrimStart(s)|..];
    }
  }

  lemma {:induction false} TrimEndIs(s: string)
    ensures var n := |TrimEnd(s)|; s[..n] == TrimEnd(s) && forall i | n <= i < |s| :: IsWhitespace(s[i])
    ensures TrimEnd(s) == "" || !IsWhitespace(TrimEnd(s)[|TrimEnd(s)| - 1])
  {
    if s != [] && IsWhitespace(s[|s| - 1]) {
      TrimEndIs(s[..|s| - 1]);
      assert s[..|TrimEnd(s)|] == s[..|s| - 1][..|TrimEnd(s)|];
    }
  }

  lemma SpaceParts(s: string, n: nat, m: nat)
    requires n <= m <= |s|
    requires (forall i | 0 <= i < n :: IsWhitespace(s[i])) && forall i | m <= i < |s| :: IsWhitespace(s[i])
    ensures s == s[..n] + s[n..m] + s[m..] && AllSpace(s[..n]) && AllSpace(s[m..])
  {
  }

  /** `trim` takes the white space off both ends, and nothing else. */
  lemma TrimIs(s: string)
    ensures exists head, tail :: s == head + Trim(s) + tail && AllSpace(head) && AllSpace(tail)
    ensures Trim(s) == "" || (!IsWhitespace(Trim(s)[0]) && !IsWhitespace(Trim(s)[|Trim(s)| - 1]))
  {
    var t := TrimStart(s);
    TrimStartIs(s);
    TrimEndIs(t);
    var n := |s| - |t|;
    var m := n + |Trim(s)|;
    forall i | m <= i < |s| ensures IsWhitespace(s[i]) { assert s[i] == t[i - n]; }
    SpaceParts(s, n, m);
    assert s[n..m] == t[..|Trim(s)|];
  }

  /** `trim_end_matches(c)`. */
  function TrimEndChar(s: string, c: char): (r: string)
    ensures |r| <= |s|
  {
    if s != [] && s[|s| - 1] == c then TrimEndChar(s[..|s| - 1], c) else s
  }

  /** `trim_matches(c)`. */
  function TrimStartChar(s: string, c: char): (r: string)
    ensures |r| <= |s|
  {
    if s != [] && s[0] == c then
      var r := TrimStartChar(s[1..], c);
      r
    else s
  }

  lemma {:induction false} TrimEndCharIs(s: string, c: char)
    ensures var r := TrimEndChar(s, c);
            && s[..|r|] == r && (r == [] || r[|r| - 1] != c) && (forall i | |r| <= i < |s| :: s[i] == c)
            && (c !in s[|r|..] ==> r == s)
  {
    if s != [] && s[|s| - 1] == c {
      var t := s[..|s| - 1];
      TrimEndCharIs(t, c);
      assert s[..|TrimEndChar(t, c)|] == t[..|TrimEndChar(t, c)|];
      assert s[|TrimEndChar(t, c)|..][|s| - 1 - |TrimEndChar(t, c)|] == c;
    }
  }

  lemma {:induction false} TrimStartCharIs(s: string, c: char)
    ensures var r := TrimStartChar(s, c);
            && s[|s| - |r|..] == r && (r == [] || r[0] != c) && forall i | 0 <= i < |s| - |r| :: s[i] == c
  {
    if s != [] && s[0] == c {
      var t := s[1..];
      TrimStartCharIs(t, c);
      assert s[|s| - |TrimStartChar(t, c)|..] == t[|t| - |TrimStartChar(t, c)|..];
    }
  }

  /** A line without the carriage return of a `\r\n` ending. */
  function StripCr(line: string): string {
    if line != [] && line[|line| - 1] == '\r' then line[..|line| - 1] else line
  }

  /** `str::lines`: parts between line feeds; a final line feed adds no empty line. */
  function Lines(text: string): (r: seq<string>)
    ensures |r| <= |text|
    decreases |text|
  {
    if text == [] then [] else
      var n := IndexOf(text, '\n');
      if n == |text| then [text]
      else [StripCr(text[..n])] + Lines(text[n + 1..])
  }

  /** The first line of a text is what stands before its first line feed. */
  lemma LinesCons(line: string, rest: string)
    requires '\n' !in line && StripCr(line) == line
    ensures Lines(line + ("\n" + rest)) == [line] + Lines(rest)
  {
    var text, k := line + ("\n" + rest), |line|;
    assert text[k] == '\n' && text[..k] == line && text[k + 1..] == rest;
    IndexOfIs(text, '\n', k);
  }

  /** Lines joined again, each but the last with its line feed. */
  function Joined(lines: seq<string>, last: string): string {
    if lines == [] then last else lines[0] + ("\n" + Joined(lines[1..], last))
  }

  /** Lines without line feeds and final carriage returns are read back as they were; what follows the
      last line feed is a line if there is anything. */
  lemma {:induction false} LinesRead(lines: seq<string>, last: string)
    requires (forall line | line in lines :: '\n' !in line && StripCr(line) == line) && '\n' !in last
    ensures Lines(Joined(lines, last)) == lines + if last == "" then [] else [last]
  {
    if lines == [] {
      IndexOfBounds(last, '\n');
    } else {
      LinesRead(lines[1..], last);
      assert lines[0] in lines;
      LinesCons(lines[0], Joined(lines[1..], last));
      assert lines == [lines[0]] + lines[1..];
    }
  }

  // Lexicographic order, as used by Rust's ordered collections of strings.

  predicate Less(a: string, b: string) {
    if b == [] then false
    else if a == [] then true
    else if a[0] != b[0] then a[0] < b[0]
    else Less(a[1..], b[1..])
  }

  lemma {:induction false} LessTotal(a: string, b: string)
    ensures a == b || Less(a, b) || Less(b, a)
    ensures !(Less(a, b) && Less(b, a))
    ensures !Less(a, a)
    decreases |a|
  {
    if a != [] {
      if b != [] {
        LessTotal(a[1..], b[1..]);
        if a[0] == b[0] && a[1..] == b[1..] { assert a == [a[0]] + a[1..] == b; }
      } else {
        LessTotal(a[1..], a[1..]);
      }
    }
  }

  lemma {:induction false} LessTransitive(a: string, b: string, c: string)
    requires Less(a, b) && Less(b, c)
    ensures Less(a, c)
    decreases |a|
  {
    if a != [] && a[0] == b[0] == c[0] { LessTransitive(a[1..], b[1..], c[1..]); }
  }

  ghost predicate Ascending(s: seq<string>) {
    forall i, j | 0 <= i < j < |s| :: Less(s[i], s[j])
  }

  ghost predicate Lists(s: seq<string>, elements: set<string>) {
    Ascending(s) && (forall x :: x in s <==> x in elements)
  }

  lemma LeastFirst(s: seq<string>, elements: set<string>, y: string)
    requires s != [] && Lists(s, elements) && y in elements
    ensures y == s[0] || Less(s[0], y)
  {
    assert y in s;
    var i :| 0 <= i < |s| && s[i] == y;
  }

  lemma EmptyListing(s: seq<string>, elements: set<string>)
    requires Lists(s, elements)
    ensures s == [] <==> elements == {}
  {
    if s != [] { assert s[0] in elements; }
  }

  lemma TailLists(s: seq<string>, elements: set<string>)
    requires s != [] && Lists(s, elements)
    ensures Lists(s[1..], elements - {s[0]})
  {
    LessTotal(s[0], s[0]);
    forall x | x in s[1..] ensures x in elements && x != s[0] {
      var i :| 0 <= i < |s[1..]| && s[1..][i] == x;
      assert s[i + 1] == x && Less(s[0], s[i + 1]);
      assert x in s;
    }
    forall x | x in elements && x != s[0] ensures x in s[1..] {
      assert x in s;
      var i :| 0 <= i < |s| && s[i] == x;
      assert s[1..][i - 1] == x;
    }
    forall i, j | 0 <= i < j < |s[1..]| ensures Less(s[1..][i], s[1..][j]) {
      assert Less(s[i + 1], s[j + 1]);
    }
  }

  /** A set of strings has one ascending listing, so iterating over an ordered
      map depends on its keys alone. */
  lemma {:induction false} ListingUnique(s: seq<string>, t: seq<string>, elements: set<string>)
    requires Lists(s, elements) && Lists(t, elements)
    ensures s == t
    decreases |s|
  {
    EmptyListing(s, elements);
    EmptyListing(t, elements);
    if s != [] {
      assert s[0] in elements && t[0] in elements;
      LessTotal(s[0], t[0]);
      LeastFirst(s, elements, t[0]);
      LeastFirst(t, elements, s[0]);
      TailLists(s, elements);
      TailLists(t, elements);
      ListingUnique(s[1..], t[1..], elements - {s[0]});
      assert s == [s[0]] + s[1..] && t == [t[0]] + t[1..];
    }
  }

  /** Insertion into an ordered set kept as its ascending listing. */
  function Insert(s: seq<string>, x: string): (r: seq<string>)
  {
    if s == [] then [x]
    else if s[0] == x then s
    else if Less(x, s[0]) then [x] + s
    else [s[0]] + Insert(s[1..], x)
  }

  lemma {:induction false} InsertLists(s: seq<string>, x: string, elements: set<string>)
    requires Lists(s, elements)
    ensures Lists(Insert(s, x), elements + {x})
    decreases |s|
  {
    if s == [] {
    } else if s[0] == x {
      assert s[0] in s;
    } else if Less(x, s[0]) {
      forall y | y in elements ensures Less(x, y) {
        if y != s[0] {
          LeastFirst(s, elements, y);
          LessTransitive(x, s[0], y);
        }
      }
      ConsLists(x, s, elements);
    } else {
      LessTotal(s[0], x);
      TailLists(s, elements);
      var rest := elements - {s[0]};
      InsertLists(s[1..], x, rest);
      forall y | y in rest + {x} ensures Less(s[0], y) {
        if y != x { LeastFirst(s, elements, y); }
      }
      ConsLists(s[0], Insert(s[1..], x), rest + {x});
      assert s[0] in s;
      assert {s[0]} + (rest + {x}) == elements + {x};
    }
  }

  lemma ConsLists(x: string, s: seq<string>, elements: set<string>)
    requires Lists(s, elements)
    requires forall y | y in elements :: Less(x, y)
    ensures Lists([x] + s, {x} + elements)
  {
    var r := [x] + s;
    forall i, j | 0 <= i < j < |r| ensures Less(r[i], r[j]) {
      if i == 0 {
        assert r[j] == s[j - 1] && s[j - 1] in s;
      } else {
        assert Less(s[i - 1], s[j - 1]);
      }
    }
  }
}
