/**
 * The email pattern both CMS schemas attach to their email fields,
 * `^[^\s@]+@[^\s@]+\.[^\s@]+$`, as a predicate over strings, and its
 * characterisation as "one '@' between a local part and a dotted domain".
 */
module Email {

  /**
   * JavaScript's `\s`: the ECMAScript WhiteSpace and LineTerminator code
   * points (tab, vertical tab, form feed, the space separators of Unicode
   * category Zs, the byte order mark, line feed, carriage return, and the
   * line and paragraph separators).
   */
  predicate IsSpace(c: char)
  {
    || c == '\t' || c == '\n' || c == '\U{B}' || c == '\U{C}' || c == '\r'
    || c == ' ' || c == '\U{A0}' || c == '\U{1680}'
    || ('\U{2000}' <= c <= '\U{200A}')
    || c == '\U{2028}' || c == '\U{2029}' || c == '\U{202F}' || c == '\U{205F}'
    || c == '\U{3000}' || c == '\U{FEFF}'
  }

  /** The class `[^\s@]`. */
  predicate Plain(c: char)
  {
    !IsSpace(c) && c != '@'
  }

  /** The repetition `[^\s@]+`. */
  predicate PlainRun(s: string)
  {
    |s| > 0 && forall i :: 0 <= i < |s| ==> Plain(s[i])
  }

  /**
   * The whole string matches the anchored pattern: it splits at some '@'
   * (index `at`) and some later '.' (index `dot`) into three plain runs.
   */
  predicate MatchesEmailPattern(s: string)
  {
    exists at, dot :: 0 <= at < dot < |s| && s[at] == '@' && s[dot] == '.'
      && PlainRun(s[..at]) && PlainRun(s[at + 1..dot]) && PlainRun(s[dot + 1..])
  }

  /** The empty string does not match. */
  lemma EmptyIsNoEmail()
    ensures !MatchesEmailPattern("")
  {
  }

  /** The index of the first `c` in `s`. */
  function IndexOf(s: string, c: char): (i: nat)
    requires c in s
    ensures i < |s| && s[i] == c && c !in s[..i]
  {
    if s[0] == c then 0 else 1 + IndexOf(s[1..], c)
  }

  /** `d` has a '.' with at least one character on each side. */
  predicate DottedDomain(d: string)
  {
    exists p :: 0 < p < |d| - 1 && d[p] == '.'
  }

  /**
   * The shape an accepted address has: no whitespace, exactly one '@', a
   * non-empty local part before it, and a dotted domain after it.
   */
  predicate EmailShape(s: string)
  {
    && (forall i :: 0 <= i < |s| ==> !IsSpace(s[i]))
    && multiset(s)['@'] == 1
    && var at := IndexOf(s, '@');
       at > 0 && DottedDomain(s[at + 1..])
  }

  /** Two positions holding a character that occurs once are the same position. */
  lemma OnceMeansUnique(s: string, c: char, i: nat, j: nat)
    requires multiset(s)[c] == 1
    requires i < |s| && j < |s| && s[i] == c && s[j] == c
    ensures i == j
  {
    if i < j {
      TwoOccurrences(s, c, i, j);
    } else if j < i {
      TwoOccurrences(s, c, j, i);
    }
  }

  /** A character at two positions occurs at least twice. */
  lemma TwoOccurrences(s: string, c: char, i: nat, j: nat)
    requires i < j < |s| && s[i] == c && s[j] == c
    ensures multiset(s)[c] >= 2
  {
    assert s == s[..j] + s[j..];
    assert s[i] == s[..j][i];
    assert s[j] == s[j..][0];
  }

  /** A string matches the pattern exactly when it has the email shape. */
  lemma PatternIffShape(s: string)
    ensures MatchesEmailPattern(s) <==> EmailShape(s)
  {
    if MatchesEmailPattern(s) {
      var at, dot :| 0 <= at < dot < |s| && s[at] == '@' && s[dot] == '.'
        && PlainRun(s[..at]) && PlainRun(s[at + 1..dot]) && PlainRun(s[dot + 1..]);
      PatternGivesShape(s, at, dot);
    }
    if EmailShape(s) {
      ShapeGivesPattern(s);
    }
  }

  lemma PatternGivesShape(s: string, at: nat, dot: nat)
    requires at < dot < |s| && s[at] == '@' && s[dot] == '.'
    requires PlainRun(s[..at]) && PlainRun(s[at + 1..dot]) && PlainRun(s[dot + 1..])
    ensures EmailShape(s)
  {
    // every character other than s[at] is plain or the '.' at `dot`
    forall i | 0 <= i < |s| && i != at
      ensures Plain(s[i])
    {
      if i < at {
        assert s[i] == s[..at][i];
      } else if i < dot {
        assert s[i] == s[at + 1..dot][i - at - 1];
      } else if i > dot {
        assert s[i] == s[dot + 1..][i - dot - 1];
      }
    }
    assert s == s[..at] + [s[at]] + s[at + 1..];
    assert '@' !in s[..at];
    var rest := s[at + 1..];
    forall i | 0 <= i < |rest|
      ensures rest[i] != '@'
    {
      assert rest[i] == s[at + 1 + i];
    }
    assert multiset(s)['@'] == multiset(s[..at])['@'] + 1 + multiset(s[at + 1..])['@'];
    var d := s[at + 1..];
    assert d[dot - at - 1] == '.';
  }

  lemma ShapeGivesPattern(s: string)
    requires EmailShape(s)
    ensures MatchesEmailPattern(s)
  {
    var at := IndexOf(s, '@');
    var d := s[at + 1..];
    var p :| 0 < p < |d| - 1 && d[p] == '.';
    var dot := at + 1 + p;
    assert s[dot] == '.';
    forall i | 0 <= i < |s| && i != at
      ensures Plain(s[i])
    {
      if s[i] == '@' {
        OnceMeansUnique(s, '@', i, at);
      }
    }
    assert PlainRun(s[..at]);
    var domain := s[at + 1..dot];
    forall i | 0 <= i < |domain|
      ensures Plain(domain[i])
    {
      assert domain[i] == s[at + 1 + i];
    }
    var tld := s[dot + 1..];
    forall i | 0 <= i < |tld|
      ensures Plain(tld[i])
    {
      assert tld[i] == s[dot + 1 + i];
    }
  }
}

/** Sample addresses, accepted and refused by the pattern. */
module EmailExamples {
  import opened Email

  /** A split at `at` and `dot` into three plain runs witnesses a match. */
  lemma MatchAt(s: string, at: nat, dot: nat)
    requires at < dot < |s| && s[at] == '@' && s[dot] == '.'
    requires PlainRun(s[..at]) && PlainRun(s[at + 1..dot]) && PlainRun(s[dot + 1..])
    ensures MatchesEmailPattern(s)
  {
  }

  /** A non-empty run of lower-case ASCII letters is a plain run. */
  lemma LettersArePlain(s: string)
    requires |s| > 0 && forall i :: 0 <= i < |s| ==> 'a' <= s[i] <= 'z'
    ensures PlainRun(s)
  {
  }

  lemma AcceptsPlainAddress()
    ensures MatchesEmailPattern("jane@example.com")
  {
    var s := "jane@example.com";
    assert s[..4] == "jane";
    LettersArePlain(s[..4]);
    assert s[5..12] == "example";
    LettersArePlain(s[5..12]);
    assert s[13..] == "com";
    LettersArePlain(s[13..]);
    MatchAt(s, 4, 12);
  }

  lemma AcceptsDotsInDomain()
    ensures MatchesEmailPattern("a@b.c.d")
  {
    var s := "a@b.c.d";
    assert s[..1] == "a";
    LettersArePlain(s[..1]);
    assert s[2..5] == "b.c";
    assert PlainRun(s[2..5]);
    assert s[6..] == "d";
    LettersArePlain(s[6..]);
    MatchAt(s, 1, 5);
  }

  lemma RefusesUndottedDomain()
    ensures !MatchesEmailPattern("jane@example")
  {
    var s := "jane@example";
    assert forall i :: 0 <= i < |s| ==> s[i] != '.';
  }

  lemma RefusesEmptyLocalPart()
    ensures !MatchesEmailPattern("@example.com")
  {
    var s := "@example.com";
    assert forall i :: 0 < i < |s| ==> s[i] != '@';
  }

  lemma RefusesWhitespace()
    ensures !MatchesEmailPattern("jane doe@example.com")
  {
    var s := "jane doe@example.com";
    assert forall i :: 0 <= i < |s| && i != 8 ==> s[i] != '@';
    assert s[..8][4] == ' ';
  }
}
