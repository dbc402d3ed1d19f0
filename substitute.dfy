/**
 * `re.sub(pattern, repl, s)` with no count limit, and `s.replace(old, new)`:
 * scan left to right, replace each leftmost match and resume after it,
 * copy a character where nothing matches.
 */
module Substitute {
  import opened Options
  import opened Text
  import opened Patterns

  /**
   * What a pattern finds at the head of a string; the flag says whether
   * the head is the start of a line, which only `^` looks at.
   */
  type Matcher = (string, bool) -> Option<Hit>

  /** The matcher of one rule. */
  function MatcherOf(rule: Rule): Matcher {
    (t: string, bol: bool) => Match(rule, t, bol)
  }

  /** A match consumes at least one character and no more than there are. */
  predicate Fits(r: Option<Hit>, t: string) {
    r.Some? && 0 < r.value.len <= |t|
  }

  /** The substitution of matcher `m` over `t`; `bol` says whether `t` begins a line. */
  function Sub(m: Matcher, t: string, bol: bool): string
    decreases |t|
  {
    if t == [] then []
    else
      var r := m(t, bol);
      if Fits(r, t) then r.value.rep + Sub(m, t[r.value.len..], t[r.value.len - 1] == '\n')
      else [t[0]] + Sub(m, t[1..], t[0] == '\n')
  }

  /** One `re.sub` (or `str.replace`) call over a whole string. */
  function Rewrite(rule: Rule, s: string): string {
    Sub(MatcherOf(rule), s, true)
  }

  /** Index `k` of `s` is the start of a line (where MULTILINE `^` matches). */
  predicate LineStart(s: string, k: int) {
    k == 0 || (0 < k <= |s| && s[k - 1] == '\n')
  }

  /** The matcher never looks at the start-of-line flag. */
  ghost predicate Unanchored(m: Matcher) {
    forall t, b :: m(t, b) == m(t, !b)
  }

  /** Every match of the matcher begins with the character `c`. */
  ghost predicate BeginsWith(m: Matcher, c: char) {
    forall t, b :: Fits(m(t, b), t) ==> t[0] == c
  }

  lemma MatcherOfUnanchored(rule: Rule)
    requires !rule.PlusItem?
    ensures Unanchored(MatcherOf(rule))
  {
  }

  lemma MatcherOfBackslashFirst(rule: Rule)
    requires Escaped(rule)
    ensures BeginsWith(MatcherOf(rule), '\\') && Unanchored(MatcherOf(rule))
  {
  }

  /** A matcher that matches at no index of `s` leaves `s` as it is. */
  lemma {:induction false} SubUnchanged(m: Matcher, s: string, k: nat)
    requires k <= |s|
    requires forall j :: k <= j < |s| ==> !Fits(m(s[j..], LineStart(s, j)), s[j..])
    ensures Sub(m, s[k..], LineStart(s, k)) == s[k..]
    decreases |s| - k
  {
    if k < |s| {
      var t := s[k..];
      assert t[1..] == s[k + 1..];
      assert (t[0] == '\n') == LineStart(s, k + 1);
      SubUnchanged(m, s, k + 1);
    }
  }

  /** A rule that matches at no index of `s` leaves `s` as it is. */
  lemma {:induction false} RewriteUnchanged(rule: Rule, s: string)
    requires forall k :: 0 <= k < |s| ==> Match(rule, s[k..], LineStart(s, k)).None?
    ensures Rewrite(rule, s) == s
  {
    SubUnchanged(MatcherOf(rule), s, 0);
  }

  /** A string without backslashes is left as it is by every rule that needs one. */
  lemma {:induction false} RewriteNoBackslash(rule: Rule, s: string)
    requires Escaped(rule) || (rule.Literal? && '\\' in rule.pat)
    requires '\\' !in s
    ensures Rewrite(rule, s) == s
  {
    forall k | 0 <= k < |s| ensures Match(rule, s[k..], LineStart(s, k)).None? {
      assert s[k..][0] == s[k];
    }
    RewriteUnchanged(rule, s);
  }

  /** An unanchored matcher gives the same substitution whatever the flag. */
  lemma {:induction false} SubIgnoresLineStart(m: Matcher, t: string, b1: bool, b2: bool)
    requires Unanchored(m)
    ensures Sub(m, t, b1) == Sub(m, t, b2)
    decreases |t|
  {
    if t != [] {
      assert m(t, b1) == m(t, b2) by {
        assert m(t, b1) == m(t, !b1);
      }
      var r := m(t, b1);
      if Fits(r, t) {
        SubIgnoresLineStart(m, t[r.value.len..], t[r.value.len - 1] == '\n', t[r.value.len - 1] == '\n');
      }
    }
  }

  /** Text without the character every match begins with passes through untouched. */
  lemma {:induction false} SubSkip(m: Matcher, c: char, a: string, x: string, bol: bool)
    requires BeginsWith(m, c) && Unanchored(m) && c !in a
    ensures Sub(m, a + x, bol) == a + Sub(m, x, bol)
    decreases |a|
  {
    if a == [] {
      assert a + x == x;
    } else {
      var t := a + x;
      assert t[0] == a[0] != c;
      assert !Fits(m(t, bol), t);
      assert t[1..] == a[1..] + x;
      SubSkip(m, c, a[1..], x, t[0] == '\n');
      SubIgnoresLineStart(m, x, t[0] == '\n', bol);
      assert [a[0]] + a[1..] == a;
    }
  }

  /** Every match of the matcher begins with the two characters `c0` `c1`. */
  ghost predicate BeginsWithPair(m: Matcher, c0: char, c1: char) {
    forall t, b :: Fits(m(t, b), t) ==> 1 < |t| && t[0] == c0 && t[1] == c1
  }

  /**
   * Text without `c1` in front of the input passes through untouched, as long
   * as its last character and the input's first do not make the pair `c0` `c1`.
   */
  lemma {:induction false} SubSkipPair(m: Matcher, c0: char, c1: char, a: string, x: string, bol: bool)
    requires BeginsWithPair(m, c0, c1) && Unanchored(m) && c1 !in a
    requires a == [] || a[|a| - 1] != c0 || x == [] || x[0] != c1
    ensures Sub(m, a + x, bol) == a + Sub(m, x, bol)
    decreases |a|
  {
    if a == [] {
      assert a + x == x;
    } else {
      var t := a + x;
      PairSplit(a, x, c0, c1);
      PairMiss(m, c0, c1, t, bol);
      SubSkipPair(m, c0, c1, a[1..], x, t[0] == '\n');
      SubIgnoresLineStart(m, x, t[0] == '\n', bol);
      assert [a[0]] + a[1..] == a;
    }
  }

  /** Where the text does not begin with the pair, the matcher does not fire. */
  lemma PairMiss(m: Matcher, c0: char, c1: char, t: string, bol: bool)
    requires BeginsWithPair(m, c0, c1)
    requires |t| < 2 || t[0] != c0 || t[1] != c1
    ensures !Fits(m(t, bol), t)
  {
  }

  /** The shape facts behind one step of `SubSkipPair`. */
  lemma PairSplit(a: string, x: string, c0: char, c1: char)
    requires a != [] && c1 !in a
    requires a[|a| - 1] != c0 || x == [] || x[0] != c1
    ensures var t := a + x;
      (|t| < 2 || t[0] != c0 || t[1] != c1) && t[0] == a[0] && t[1..] == a[1..] + x
    ensures a[1..] == [] || a[1..][|a[1..]| - 1] != c0 || x == [] || x[0] != c1
  {
    var t := a + x;
    if |a| > 1 {
      assert t[1] == a[1];
      assert a[1..][|a[1..]| - 1] == a[|a| - 1];
    } else {
      assert t[1..] == x;
    }
    assert t[1..] == a[1..] + x;
  }

  /** Backslash-free text in front of the input is kept as it is. */
  lemma {:induction false} RewriteSkip(rule: Rule, a: string, x: string)
    requires Escaped(rule) && '\\' !in a
    ensures Rewrite(rule, a + x) == a + Rewrite(rule, x)
  {
    MatcherOfBackslashFirst(rule);
    SubSkip(MatcherOf(rule), '\\', a, x, true);
  }

  /** Where the matcher fires, the match is replaced and the scan resumes after it. */
  lemma {:induction false} SubHit(m: Matcher, t: string, h: Hit)
    requires Unanchored(m) && m(t, true) == Some(h) && 0 < h.len <= |t|
    ensures Sub(m, t, true) == h.rep + Sub(m, t[h.len..], true)
  {
    SubIgnoresLineStart(m, t[h.len..], t[h.len - 1] == '\n', true);
  }

  /** Where the matcher does not fire, one character is copied. */
  lemma {:induction false} SubMiss(m: Matcher, t: string)
    requires Unanchored(m) && t != [] && m(t, true).None?
    ensures Sub(m, t, true) == [t[0]] + Sub(m, t[1..], true)
  {
    SubIgnoresLineStart(m, t[1..], t[0] == '\n', true);
  }

  /** Backslash-free text, then a match: the text is kept and the match replaced. */
  lemma {:induction false} SubSkipHit(m: Matcher, a: string, t: string, h: Hit)
    requires BeginsWith(m, '\\') && Unanchored(m) && '\\' !in a
    requires m(t, true) == Some(h) && 0 < h.len <= |t|
    ensures Sub(m, a + t, true) == a + h.rep + Sub(m, t[h.len..], true)
  {
    SubSkip(m, '\\', a, t, true);
    SubHit(m, t, h);
  }

  /** Backslash-free text, then a character where the matcher does not fire. */
  lemma {:induction false} SubSkipMiss(m: Matcher, a: string, t: string)
    requires BeginsWith(m, '\\') && Unanchored(m) && '\\' !in a
    requires t != [] && m(t, true).None?
    ensures Sub(m, a + t, true) == a + [t[0]] + Sub(m, t[1..], true)
  {
    SubSkip(m, '\\', a, t, true);
    SubMiss(m, t);
  }

  /** A rule that does not match at a backslash copies it and goes on. */
  lemma {:induction false} RewriteMiss(rule: Rule, a: string, t: string)
    requires Escaped(rule) && '\\' !in a && t != []
    requires Match(rule, t, true).None?
    ensures Rewrite(rule, a + t) == a + [t[0]] + Rewrite(rule, t[1..])
  {
    MatcherOfBackslashFirst(rule);
    MatcherOfUnanchored(rule);
    SubSkipMiss(MatcherOf(rule), a, t);
  }

  /** Backslash-free text, then a matched source `src`, then the rest. */
  lemma {:induction false} SubAt(m: Matcher, a: string, src: string, b: string, h: Hit)
    requires BeginsWith(m, '\\') && Unanchored(m) && '\\' !in a
    requires m(src + b, true) == Some(h) && 0 < h.len == |src|
    ensures Sub(m, a + src + b, true) == a + h.rep + Sub(m, b, true)
  {
    var t := src + b;
    assert a + src + b == a + t;
    assert t[h.len..] == b;
    SubSkipHit(m, a, t, h);
  }

  /**
   * A construct `src` that the rule matches in full, after backslash-free
   * text: the text is kept, `src` is replaced and the scan goes on after it.
   */
  lemma {:induction false} RewriteAt(rule: Rule, a: string, src: string, b: string, h: Hit)
    requires Escaped(rule) && '\\' !in a
    requires Match(rule, src + b, true) == Some(h) && h.len == |src|
    ensures Rewrite(rule, a + src + b) == a + h.rep + Rewrite(rule, b)
  {
    MatcherOfBackslashFirst(rule);
    MatcherOfUnanchored(rule);
    SubAt(MatcherOf(rule), a, src, b, h);
  }
}
