/**
 * The email format check of the access handler: the regular expression
 * `^[^\s@]+@[^\s@]+\.[^\s@]+$`, stated as the decomposition it accepts, and
 * proved equal to four plain conditions on the string.
 */
module EmailFormat {

  /** The JavaScript `\s` class: ECMAScript WhiteSpace and LineTerminator characters. */
  predicate IsSpace(c: char)
  {
    c == ' ' || c == '\t' || c == '\n' || c == '\r' || c == '\U{000B}' || c == '\U{000C}'
    || c == '\U{00A0}' || c == '\U{1680}' || ('\U{2000}' <= c <= '\U{200A}')
    || c == '\U{2028}' || c == '\U{2029}' || c == '\U{202F}' || c == '\U{205F}'
    || c == '\U{3000}' || c == '\U{FEFF}'
  }

  /** A character of the class `[^\s@]`. */
  predicate Plain(c: char)
  {
    !IsSpace(c) && c != '@'
  }

  /** Every character of `s` is in `[^\s@]` (the body of a `[^\s@]+` run). */
  predicate AllPlain(s: string)
  {
    forall i | 0 <= i < |s| :: Plain(s[i])
  }

  /**
   * `s` is `[^\s@]+`, the `@` at index `at`, `[^\s@]+`, the literal `.` at
   * index `dot`, `[^\s@]+`, with nothing before or after (the anchors).
   */
  predicate SplitsAt(s: string, at: int, dot: int)
  {
    0 < at && at + 1 < dot && dot + 1 < |s|
    && s[at] == '@' && s[dot] == '.'
    && AllPlain(s[..at]) && AllPlain(s[at + 1..dot]) && AllPlain(s[dot + 1..])
  }

  /** `emailRegex.test(s)`: some choice of the `@` and of the escaped dot matches. */
  predicate MatchesEmailRegex(s: string)
  {
    exists at, dot | 0 <= at < |s| && 0 <= dot < |s| :: SplitsAt(s, at, dot)
  }

  /** No character of `s` is whitespace. */
  predicate NoSpace(s: string)
  {
    forall i | 0 <= i < |s| :: !IsSpace(s[i])
  }

  /** The index of the first `c` in `s`, or `|s|` when there is none. */
  function IndexOf(s: string, c: char): (k: nat)
    ensures k <= |s|
    ensures c !in s[..k]
    ensures k < |s| ==> s[k] == c
  {
    if s == [] then 0
    else if s[0] == c then 0
    else
      var k := 1 + IndexOf(s[1..], c);
      assert s[..k] == [s[0]] + s[1..][..k - 1];
      k
  }

  /** `d` has a `.` that is neither its first nor its last character. */
  predicate DotInside(d: string)
  {
    exists j | 0 <= j < |d| :: 0 < j < |d| - 1 && d[j] == '.'
  }

  /**
   * The four conditions an accepted address meets: no whitespace, exactly one
   * `@`, a non-empty part before it, and a dot strictly inside the part after it.
   */
  predicate WellFormedEmail(s: string)
  {
    NoSpace(s) && multiset(s)['@'] == 1
    && var at := IndexOf(s, '@');
    0 < at < |s| && DotInside(s[at + 1..])
  }

  /** A string with an `@` at `at` and one `@` in all has no other `@`. */
  lemma OnlyAt(s: string, at: nat)
    requires at < |s| && s[at] == '@' && multiset(s)['@'] == 1
    ensures '@' !in s[..at] && '@' !in s[at + 1..]
  {
    assert s == s[..at] + [s[at]] + s[at + 1..];
    assert multiset(s) == multiset(s[..at]) + multiset{'@'} + multiset(s[at + 1..]);
  }

  /** Every character of a slice of `s` that has no whitespace and no `@` is plain. */
  lemma PlainSlice(s: string, lo: nat, hi: nat)
    requires lo <= hi <= |s| && NoSpace(s) && '@' !in s[lo..hi]
    ensures AllPlain(s[lo..hi])
  {
  }

  /** A string the regular expression accepts is well formed. */
  lemma {:induction false} MatchIsWellFormed(s: string, at: nat, dot: nat)
    requires SplitsAt(s, at, dot)
    ensures WellFormedEmail(s)
  {
    var a, b, c := s[..at], s[at + 1..dot], s[dot + 1..];
    assert s == a + ['@'] + b + ['.'] + c;
    forall i | 0 <= i < |s| ensures !IsSpace(s[i]) {
      if i < at { assert s[i] == a[i]; }
      else if at < i < dot { assert s[i] == b[i - at - 1]; }
      else if dot < i { assert s[i] == c[i - dot - 1]; }
    }
    forall t, x | t in {a, b, c} && x in t ensures x != '@' {
      var i :| 0 <= i < |t| && t[i] == x;
      assert Plain(t[i]);
    }
    assert multiset(s) == multiset(a) + multiset{'@'} + multiset(b) + multiset{'.'} + multiset(c);
    var k := IndexOf(s, '@');
    assert k == at;
    var d := s[at + 1..];
    assert d[dot - at - 1] == '.';
  }

  /** A well-formed string is accepted by the regular expression. */
  lemma {:induction false} WellFormedMatches(s: string)
    requires WellFormedEmail(s)
    ensures MatchesEmailRegex(s)
  {
    var at := IndexOf(s, '@');
    var d := s[at + 1..];
    var j :| 0 <= j < |d| && 0 < j < |d| - 1 && d[j] == '.';
    var dot := at + 1 + j;
    OnlyAt(s, at);
    assert s[dot] == '.';
    assert s[at + 1..dot] == d[..j] && s[dot + 1..] == d[j + 1..];
    assert '@' !in s[at + 1..dot] && '@' !in s[dot + 1..] by {
      assert d == d[..j] + [d[j]] + d[j + 1..];
    }
    PlainSlice(s, 0, at);
    PlainSlice(s, at + 1, dot);
    PlainSlice(s, dot + 1, |s|);
    assert s[..at] == s[0..at];
    assert SplitsAt(s, at, dot);
  }

  /** The regular expression accepts exactly the well-formed addresses. */
  lemma {:induction false} EmailRegexCharacterization(s: string)
    ensures MatchesEmailRegex(s) <==> WellFormedEmail(s)
  {
    if MatchesEmailRegex(s) {
      var at, dot :| 0 <= at < |s| && 0 <= dot < |s| && SplitsAt(s, at, dot);
      MatchIsWellFormed(s, at, dot);
    }
    if WellFormedEmail(s) {
      WellFormedMatches(s);
    }
  }
}
