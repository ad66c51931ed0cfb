/** The marked block the visual picker adds to the local list, and its undo. */
module Picker {
  import opened Text
  import opened Hosts
  import opened Selector

  const TOKEN_LENGTH := 36
  const MARKER := "\n! NAAB picker "

  predicate TokenChar(c: char) { IsDigit(c) || 'a' <= c <= 'f' || c == '-' }

  predicate ValidToken(token: string) {
    |token| == TOKEN_LENGTH && forall i | 0 <= i < |token| :: TokenChar(token[i])
  }

  predicate ValidPick(host: string, selector: string, token: string) {
    IsDomain(host) && ValidSelector(selector) && HasMark(selector) && ValidToken(token)
  }

  function PickerRule(host: string, selector: string): string { host + "##" + selector }

  /** `pickerBlock`. */
  function Block(token: string, rule: string): string { MARKER + token + "\n" + rule + "\n" }

  /** `text.replace(block, '')`: only the first occurrence goes. */
  function RemoveFirst(text: string, block: string): string {
    match Find(text, block)
    case None => text
    case Some(i) => text[..i] + text[i + |block|..]
  }

  /** One line that does not start like a comment. */
  predicate RuleLine(rule: string) { rule != "" && rule[0] != '!' && '\n' !in rule }

  predicate TokenLine(token: string) { '\n' !in token }

  lemma BlockChars(token: string, rule: string)
    requires TokenLine(token) && RuleLine(rule)
    ensures var b, m := Block(token, rule), |MARKER| + |token|;
            && |b| == m + |rule| + 2
            && b[0] == '\n' && b[1] == '!' && b[m] == '\n' && b[m + 1] == rule[0] && b[|b| - 1] == '\n'
            && forall i | 0 < i < |b| - 1 && i != m :: b[i] != '\n'
  {
    var b, m := Block(token, rule), |MARKER| + |token|;
    var marker := MARKER;
    assert |marker| == 15 && marker[0] == '\n' && marker[1] == '!';
    assert forall i | 1 <= i < 15 :: marker[i] != '\n' by {
      assert marker[1] == '!' && marker[2] == ' ' && marker[3] == 'N' && marker[4] == 'A' && marker[5] == 'A'
             && marker[6] == 'B' && marker[7] == ' ' && marker[8] == 'p' && marker[9] == 'i' && marker[10] == 'c'
             && marker[11] == 'k' && marker[12] == 'e' && marker[13] == 'r' && marker[14] == ' ';
    }
    forall i | 0 < i < |b| - 1 && i != m ensures b[i] != '\n' {
      if i < 15 {
        assert b[i] == marker[i];
      } else if i < m {
        assert b[i] == token[i - 15] && token[i - 15] in token;
      } else {
        assert b[i] == rule[i - m - 1] && rule[i - m - 1] in rule;
      }
    }
  }

  /** The block overlaps itself by its one newline and by nothing longer. */
  lemma OnlyNewlineOverlaps(token: string, rule: string, k: nat)
    requires TokenLine(token) && RuleLine(rule) && 1 < k < |Block(token, rule)|
    ensures var b := Block(token, rule); b[..k] != b[|b| - k..]
  {
    var b, m := Block(token, rule), |MARKER| + |token|;
    BlockChars(token, rule);
    var tail := b[|b| - k..];
    assert tail[0] == b[|b| - k] && tail[1] == b[|b| - k + 1];
    assert b[..k][0] == '\n' && b[..k][1] == '!';
  }

  /** The block without its last newline, as it may already end a text that lacks one. */
  function Unterminated(block: string): string
    requires block != ""
  {
    block[..|block| - 1]
  }

  /** An occurrence that starts before the inserted block either lies in the text before it or
      begins with an unterminated copy at its end. */
  lemma EarlierOccurrence(prefix: string, suffix: string, token: string, rule: string, i: nat)
    requires TokenLine(token) && RuleLine(rule)
    requires i < |prefix| && OccursAt(prefix + Block(token, rule) + suffix, Block(token, rule), i)
    ensures var b := Block(token, rule);
            OccursAt(prefix, b, i) || (EndsWith(prefix, Unterminated(b)) && i == |prefix| - |b| + 1)
  {
    var b := Block(token, rule);
    var s := prefix + b + suffix;
    assert s[i..][..|b|] == b;
    if i + |b| <= |prefix| {
      assert prefix[i..][..|b|] == s[i..][..|b|];
    } else {
      var k := i + |b| - |prefix|;
      assert b[|b| - k..] == b[..k] by {
        assert s[i..][..|b|][|b| - k..] == s[|prefix|..][..k] == b[..k];
      }
      if k > 1 { OnlyNewlineOverlaps(token, rule, k); }
      assert prefix[i..] == s[i..][..|b|][..|b| - 1];
    }
  }

  lemma UndoneSplice(prefix: string, suffix: string, token: string, rule: string)
    requires TokenLine(token) && RuleLine(rule)
    requires !Contains(prefix, Block(token, rule)) && !EndsWith(prefix, Unterminated(Block(token, rule)))
    ensures RemoveFirst(prefix + Block(token, rule) + suffix, Block(token, rule)) == prefix + suffix
  {
    var b := Block(token, rule);
    var s := prefix + b + suffix;
    FindLeast(prefix, b);
    assert s[|prefix|..][..|b|] == b;
    forall j | 0 <= j < |prefix| ensures !OccursAt(s, b, j) {
      if OccursAt(s, b, j) { EarlierOccurrence(prefix, suffix, token, rule, j); }
    }
    FindIs(s, b, |prefix|);
    assert s[..|prefix|] == prefix && s[|prefix| + |b|..] == suffix;
  }

  /** Undo after edits around the block, where the text before holds no copy of it, gives exactly what
      surrounds it if and only if the text before does not end with an unterminated copy. */
  lemma UndoSplice(prefix: string, suffix: string, token: string, rule: string)
    requires TokenLine(token) && RuleLine(rule) && !Contains(prefix, Block(token, rule))
    ensures RemoveFirst(prefix + Block(token, rule) + suffix, Block(token, rule)) == prefix + suffix
            <==> !EndsWith(prefix, Unterminated(Block(token, rule)))
  {
    if EndsWith(prefix, Unterminated(Block(token, rule))) {
      SpliceDamaged(prefix, suffix, token, rule);
    } else {
      UndoneSplice(prefix, suffix, token, rule);
    }
  }

  lemma SpliceDamaged(prefix: string, suffix: string, token: string, rule: string)
    requires TokenLine(token) && RuleLine(rule) && !Contains(prefix, Block(token, rule))
    requires EndsWith(prefix, Unterminated(Block(token, rule)))
    ensures RemoveFirst(prefix + Block(token, rule) + suffix, Block(token, rule)) != prefix + suffix
  {
    var b := Block(token, rule);
    var i := |prefix| - |b| + 1;
    UnterminatedCopyFirst(prefix, suffix, token, rule);
    BlockChars(token, rule);
    var r, whole := prefix[..i] + b[1..] + suffix, prefix + suffix;
    assert r[i] == b[1] && whole[i] == prefix[i] == prefix[i..][0] == Unterminated(b)[0] == b[0];
  }

  lemma Slices(before: string, b: string, after: string)
    ensures var s := before + b + after;
            s[..|before|] == before && s[|before|..][..|b|] == b && s[|before| + |b|..] == after
  {
  }

  /** An unterminated copy before the block makes one that starts in the text. */
  lemma OverlappingCopy(text: string, b: string, suffix: string)
    requires b != "" && b[0] == b[|b| - 1] && EndsWith(text, Unterminated(b))
    ensures var before := text[..|text| - |b| + 1]; text + b + suffix == before + b + (b[1..] + suffix)
  {
    var before, u := text[..|text| - |b| + 1], Unterminated(b);
    assert text == before + u;
    assert u + b == b + b[1..] by {
      assert u + [b[0]] == b;
      assert b == [b[0]] + b[1..];
    }
    assert (before + u) + b == before + (u + b);
    assert before + (b + b[1..]) + suffix == before + b + (b[1..] + suffix);
  }

  lemma UnterminatedCopyFirst(text: string, suffix: string, token: string, rule: string)
    requires TokenLine(token) && RuleLine(rule)
    requires !Contains(text, Block(token, rule)) && EndsWith(text, Unterminated(Block(token, rule)))
    ensures var b := Block(token, rule);
            var i := |text| - |b| + 1;
            Find(text + b + suffix, b) == Some(i) && RemoveFirst(text + b + suffix, b) == text[..i] + b[1..] + suffix
  {
    var b := Block(token, rule);
    var s, i := text + b + suffix, |text| - |b| + 1;
    BlockChars(token, rule);
    FindLeast(text, b);
    OverlappingCopy(text, b, suffix);
    Slices(text[..i], b, b[1..] + suffix);
    forall j | 0 <= j < i ensures !OccursAt(s, b, j) {
      if OccursAt(s, b, j) { EarlierOccurrence(text, suffix, token, rule, j); }
    }
    FindIs(s, b, i);
    assert text[..i] + (b[1..] + suffix) == text[..i] + b[1..] + suffix;
  }

  /** Saving a new block and undoing it restores the text exactly when the text does not already
      end with the block short of its final newline. */
  lemma UndoRestores(text: string, token: string, rule: string)
    requires TokenLine(token) && RuleLine(rule) && !Contains(text, Block(token, rule))
    ensures RemoveFirst(text + Block(token, rule), Block(token, rule)) == text
            <==> !EndsWith(text, Unterminated(Block(token, rule)))
  {
    var b := Block(token, rule);
    assert text + b == text + b + "" && text + "" == text;
    UndoSplice(text, "", token, rule);
  }

  /** The failing case exists: a list that ends with the block but not with its newline. */
  lemma UndoCanDamage(token: string, rule: string)
    requires TokenLine(token) && RuleLine(rule)
    ensures var b := Block(token, rule);
            var text := Unterminated(b);
            !Contains(text, b) && RemoveFirst(text + b, b) == b[1..] != text
  {
    var b := Block(token, rule);
    var text := Unterminated(b);
    assert !Contains(text, b);
    BlockChars(token, rule);
    assert EndsWith(text, Unterminated(b)) by { assert text[0..] == text; }
    UnterminatedCopyFirst(text, "", token, rule);
    assert text + b == text + b + "";
    assert b[1..] + "" == b[1..];
    assert text[..0] + b[1..] == b[1..];
    assert b[1..][0] == '!' && text[0] == '\n';
  }

  lemma BlockMark(token: string, rule: string)
    ensures var b, mark := Block(token, rule), "! NAAB picker " + token;
            |b| > |mark| + 2 && b[1..][..|mark|] == mark && Unterminated(b)[1..][..|mark|] == mark
  {
    var b, mark := Block(token, rule), "! NAAB picker " + token;
    var marker := MARKER;
    assert marker == "\n" + "! NAAB picker ";
    assert b == "\n" + mark + ("\n" + rule + "\n");
  }

  lemma MarkAtEnd(text: string, u: string, mark: string)
    requires EndsWith(text, u) && |u| > |mark| && u[1..][..|mark|] == mark
    ensures OccursAt(text, mark, |text| - |u| + 1)
  {
    var i := |text| - |u|;
    assert text[i..] == u;
    assert text[i + 1..] == u[1..];
  }

  /** A token that does not occur in the text cannot be marked in it, so its undo is always exact. */
  lemma FreshTokenUndo(text: string, token: string, rule: string)
    requires TokenLine(token) && RuleLine(rule) && !Contains(text, "! NAAB picker " + token)
    ensures !Contains(text, Block(token, rule)) && !EndsWith(text, Unterminated(Block(token, rule)))
    ensures RemoveFirst(text + Block(token, rule), Block(token, rule)) == text
  {
    FreshUnmarked(text, token, rule);
    UndoRestores(text, token, rule);
  }

  lemma FreshUnmarked(text: string, token: string, rule: string)
    requires !Contains(text, "! NAAB picker " + token)
    ensures !Contains(text, Block(token, rule)) && !EndsWith(text, Unterminated(Block(token, rule)))
  {
    var b, mark := Block(token, rule), "! NAAB picker " + token;
    BlockMark(token, rule);
    FindLeast(text, mark);
    FindLeast(text, b);
    if Contains(text, b) { MarkInside(text, b, mark, Find(text, b).value); }
    if EndsWith(text, Unterminated(b)) { MarkAtEnd(text, Unterminated(b), mark); }
  }

  lemma MarkInside(text: string, b: string, mark: string, i: nat)
    requires OccursAt(text, b, i) && |b| > |mark| + 1 && b[1..][..|mark|] == mark
    ensures OccursAt(text, mark, i + 1)
  {
    assert text[i..][..|b|] == b;
    assert text[i + 1..][..|mark|] == b[1..][..|mark|];
  }

  /** A valid pick is one rule line and a token without line breaks. */
  lemma PickIsLine(host: string, selector: string, token: string)
    requires ValidPick(host, selector, token)
    ensures RuleLine(PickerRule(host, selector)) && TokenLine(token)
  {
    DomainLine(host);
    SelectorHasNoNewline(selector);
    LineJoin(host, selector);
  }

  lemma LineJoin(host: string, selector: string)
    requires host != "" && host[0] != '!' && '\n' !in host && '\n' !in selector
    ensures RuleLine(PickerRule(host, selector))
  {
  }

  lemma DomainLine(host: string)
    requires IsDomain(host)
    ensures host != "" && host[0] != '!' && '\n' !in host
  {
    DomainStart(host);
    if '\n' in host { CharsOfParts(host, '.', '\n'); }
  }

  lemma DomainStart(host: string)
    requires IsDomain(host)
    ensures host != "" && host[0] != '!'
  {
    var parts := Split(host, '.');
    assert parts[0] in parts;
    var n := IndexOf(host, '.');
    assert parts[0] == host[..n];
    assert host[..n][0] == host[0];
  }

  lemma CompoundLacks(s: string, c: char)
    requires Compound(s) && !SelectorChar(c)
    ensures c !in s
  {
    CompoundChars(s);
  }

  lemma TrimmedLacks(s: string, c: char)
    requires c !in TrimSpaces(s) && c != ' '
    ensures c !in s
  {
    var t := TrimStartChar(s, ' ');
    var r := TrimEndChar(t, ' ');
    TrimStartCharIs(s, ' ');
    TrimEndCharIs(t, ' ');
    forall i | 0 <= i < |t| ensures t[i] != c {
      if i < |r| { assert r[i] == t[..|r|][i] && r[i] in r; }
    }
    forall i | 0 <= i < |s| ensures s[i] != c {
      if i >= |s| - |t| { assert t[i - (|s| - |t|)] == s[|s| - |t|..][i - (|s| - |t|)]; }
    }
  }

  lemma CheckedLacks(s: string, parent: string, child: string, c: char)
    requires ShapeOf(s) == Checked(parent, child) && c !in parent && c !in child
    requires c !in CHILD_CHECK && c != ')' && c != ' '
    ensures c !in s
  {
    SplitOnceJoins(s, CHILD_CHECK);
    var tail := SplitOnce(s, CHILD_CHECK).value.1;
    var inner := tail[..|tail| - 1];
    assert s == parent + CHILD_CHECK + tail;
    assert tail == inner + ")";
    TrimmedLacks(inner, c);
    JoinLacks(parent, CHILD_CHECK, inner, ")", c);
  }

  lemma JoinLacks(a: string, b: string, x: string, y: string, c: char)
    requires c !in a && c !in b && c !in x && c !in y
    ensures c !in a + b + (x + y)
  {
  }

  /** A valid selector has only the characters of compounds, the child check and spaces. */
  lemma SelectorLacks(selector: string, c: char)
    requires ValidSelector(selector) && !SelectorChar(c) && c !in CHILD_CHECK && c != ')' && c != ' '
    ensures c !in selector
  {
    match ShapeOf(selector) {
      case Plain => CompoundLacks(selector, c);
      case Checked(parent, child) =>
        CompoundLacks(parent, c);
        CompoundLacks(child, c);
        CheckedLacks(selector, parent, child, c);
    }
  }

  lemma SelectorHasNoNewline(selector: string)
    requires ValidSelector(selector)
    ensures '\n' !in selector && '@' !in selector
  {
    var check := CHILD_CHECK;
    assert '\n' !in check && '@' !in check;
    SelectorLacks(selector, '\n');
    SelectorLacks(selector, '@');
  }
}
