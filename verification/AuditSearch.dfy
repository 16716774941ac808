/** The substring search of the audit log: escaping a search text for SQL's LIKE. */
module AuditSearch {
  predicate Special(c: char) {
    c == '\\' || c == '%' || c == '_'
  }

  function Escaped(s: string): string {
    if s == [] then [] else (if Special(s[0]) then ['\\', s[0]] else [s[0]]) + Escaped(s[1..])
  }

  function EscapeLike(s: string): string {
    ['%'] + Escaped(s) + ['%']
  }

  /** `text LIKE pattern ESCAPE '\'`: `%` stands for any string, `_` for one character, and
      the escape character for the character after it (no pattern ends with it). */
  predicate Like(pattern: string, text: string)
    decreases |pattern|, |text|
  {
    if pattern == [] then text == []
    else if pattern[0] == '%' then Like(pattern[1..], text) || (text != [] && Like(pattern, text[1..]))
    else if pattern[0] == '\\' then
      |pattern| >= 2 && text != [] && text[0] == pattern[1] && Like(pattern[2..], text[1..])
    else text != [] && (pattern[0] == '_' || text[0] == pattern[0]) && Like(pattern[1..], text[1..])
  }

  ghost predicate Contains(text: string, part: string) {
    exists i :: 0 <= i <= |text| && part <= text[i..]
  }

  lemma {:induction false} PercentMatchesAll(text: string)
    ensures Like(['%'], text)
  {
    if text == [] {
      assert Like([], []);
    } else {
      PercentMatchesAll(text[1..]);
    }
  }

  lemma {:induction false} EscapedIsLiteral(part: string, text: string)
    ensures Like(Escaped(part) + ['%'], text) <==> part <= text
  {
    var pattern := Escaped(part) + ['%'];
    if part == [] {
      PercentMatchesAll(text);
      assert pattern == ['%'];
    } else {
      var rest := Escaped(part[1..]) + ['%'];
      if Special(part[0]) {
        assert pattern == ['\\', part[0]] + rest;
        assert pattern[2..] == rest;
      } else {
        assert pattern == [part[0]] + rest;
        assert pattern[1..] == rest;
      }
      if text != [] {
        EscapedIsLiteral(part[1..], text[1..]);
        assert part <= text <==> part[0] == text[0] && part[1..] <= text[1..];
      }
    }
  }

  lemma {:induction false} PercentSearches(pattern: string, text: string)
    ensures Like(['%'] + pattern, text) <==> exists i :: 0 <= i <= |text| && Like(pattern, text[i..])
    decreases |text|
  {
    var all := ['%'] + pattern;
    assert all[1..] == pattern && text[0..] == text;
    if text != [] {
      PercentSearches(pattern, text[1..]);
      assert forall i :: 0 <= i <= |text| - 1 ==> text[1..][i..] == text[i + 1..];
      if i :| 0 <= i <= |text| && Like(pattern, text[i..]) {
        assert i == 0 || Like(pattern, text[1..][i - 1..]);
      }
    }
  }

  /** For all strings: the escaped pattern matches a text if and only if the text contains the
      search text, whatever special characters either has. */
  lemma EscapeLikeFindsSubstrings(part: string, text: string)
    ensures Like(EscapeLike(part), text) <==> Contains(text, part)
  {
    assert EscapeLike(part) == ['%'] + (Escaped(part) + ['%']);
    PercentSearches(Escaped(part) + ['%'], text);
    forall i | 0 <= i <= |text| ensures Like(Escaped(part) + ['%'], text[i..]) <==> part <= text[i..] {
      EscapedIsLiteral(part, text[i..]);
    }
  }

  // ---- ILIKE ----

  function Folded(fold: char -> char, s: string): string {
    if s == [] then [] else [fold(s[0])] + Folded(fold, s[1..])
  }

  /** A case folding moves no character to or from the special ones. */
  ghost predicate IsFolding(fold: char -> char) {
    forall c :: (Special(c) ==> fold(c) == c) && (Special(fold(c)) ==> Special(c))
  }

  lemma {:induction false} FoldingCommutes(fold: char -> char, s: string)
    requires IsFolding(fold)
    ensures Folded(fold, Escaped(s)) == Escaped(Folded(fold, s))
  {
    if s != [] {
      FoldingCommutes(fold, s[1..]);
      var head := if Special(s[0]) then ['\\', s[0]] else [s[0]];
      FoldingConcat(fold, head, Escaped(s[1..]));
      assert Folded(fold, s) == [fold(s[0])] + Folded(fold, s[1..]);
      assert head[1..] == if Special(s[0]) then [s[0]] else [];
      assert Special('\\');
    }
  }

  lemma {:induction false} FoldingConcat(fold: char -> char, a: string, b: string)
    ensures Folded(fold, a + b) == Folded(fold, a) + Folded(fold, b)
  {
    if a == [] {
      assert a + b == b;
    } else {
      assert (a + b)[1..] == a[1..] + b;
      FoldingConcat(fold, a[1..], b);
    }
  }

  /** The same for ILIKE, which folds the pattern and the text first: a search up to case. */
  lemma EscapeLikeFindsFoldedSubstrings(fold: char -> char, part: string, text: string)
    requires IsFolding(fold)
    ensures Like(Folded(fold, EscapeLike(part)), Folded(fold, text)) <==>
            Contains(Folded(fold, text), Folded(fold, part))
  {
    FoldingCommutes(fold, part);
    FoldingConcat(fold, ['%'] + Escaped(part), ['%']);
    FoldingConcat(fold, ['%'], Escaped(part));
    assert Special('%') && ['%'][1..] == [];
    assert Folded(fold, ['%']) == ['%'];
    assert Folded(fold, EscapeLike(part)) == EscapeLike(Folded(fold, part));
    EscapeLikeFindsSubstrings(Folded(fold, part), Folded(fold, text));
  }
}
