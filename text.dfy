/**
 * Character classes and string helpers shared by the resume converter:
 * the character sets behind the regular expressions, searching for a
 * literal, and Python's `str.strip()`.
 */
module Text {
  import opened Options

  /**
   * Python's `str.isspace()` set, which is also what `\s` matches in a
   * `str` regular expression and what `str.strip()` removes.
   */
  predicate IsSpace(c: char) {
    || ('\t' <= c <= '\r')
    || ('\U{1C}' <= c <= '\U{1F}')
    || c == ' '
    || c == '\U{85}'
    || c == '\U{A0}'
    || c == '\U{1680}'
    || ('\U{2000}' <= c <= '\U{200A}')
    || c == '\U{2028}'
    || c == '\U{2029}'
    || c == '\U{202F}'
    || c == '\U{205F}'
    || c == '\U{3000}'
  }

  /** `[a-zA-Z]` */
  predicate IsLetter(c: char) {
    ('a' <= c <= 'z') || ('A' <= c <= 'Z')
  }

  /** `\w`, restricted to ASCII: letters, digits and underscore. */
  predicate IsWordChar(c: char) {
    IsLetter(c) || ('0' <= c <= '9') || c == '_'
  }

  /** The character classes the converter's patterns repeat. */
  datatype CharClass = Space | Word | Letter | Newline {
    predicate Has(c: char) {
      match this
      case Space => IsSpace(c)
      case Word => IsWordChar(c)
      case Letter => IsLetter(c)
      case Newline => c == '\n'
    }
  }

  /** Length of the longest prefix of `t` drawn from class `k` (a greedy `k*`). */
  function Run(t: string, k: CharClass): (n: nat)
    ensures n <= |t|
    ensures forall i :: 0 <= i < n ==> k.Has(t[i])
    ensures n < |t| ==> !k.Has(t[n])
  {
    if t != [] && k.Has(t[0]) then 1 + Run(t[1..], k) else 0
  }

  /** `pat` occurs in `t` starting at index `k`. */
  predicate OccursAt(pat: string, t: string, k: int) {
    0 <= k <= |t| && pat <= t[k..]
  }

  /** The leftmost occurrence of `pat` in `t` at or after `from`. */
  function Find(pat: string, t: string, from: nat): (r: Option<nat>)
    requires from <= |t|
    ensures r.Some? ==> from <= r.value && OccursAt(pat, t, r.value)
    ensures forall k :: from <= k && (r.Some? ==> k < r.value) ==> !OccursAt(pat, t, k)
    decreases |t| - from
  {
    if OccursAt(pat, t, from) then Some(from)
    else if from == |t| then None
    else Find(pat, t, from + 1)
  }

  /** Python's `s.lstrip()`. */
  function TrimStart(s: string): (r: string)
    ensures |r| <= |s| && r == s[|s| - |r|..]
    ensures forall i :: 0 <= i < |s| - |r| ==> IsSpace(s[i])
    ensures r == [] || !IsSpace(r[0])
  {
    if s != [] && IsSpace(s[0]) then TrimStart(s[1..]) else s
  }

  /** Python's `s.rstrip()`. */
  function TrimEnd(s: string): (r: string)
    ensures |r| <= |s| && r == s[..|r|]
    ensures forall i :: |r| <= i < |s| ==> IsSpace(s[i])
    ensures r == [] || !IsSpace(r[|r| - 1])
  {
    if s != [] && IsSpace(s[|s| - 1]) then TrimEnd(s[..|s| - 1]) else s
  }

  /**
   * Python's `s.strip()`: the result is the part of `s` left after every
   * leading and trailing whitespace character is removed.
   */
  function Strip(s: string): (r: string)
    ensures r == [] || (!IsSpace(r[0]) && !IsSpace(r[|r| - 1]))
    ensures exists i :: PaddedAt(s, i, r)
  {
    var tail := TrimStart(s);
    var r := TrimEnd(tail);
    assert r == s[|s| - |tail|..][..|r|];
    assert PaddedAt(s, |s| - |tail|, r);
    r
  }

  /** `s` is `r` at index `i` with only whitespace before and after it. */
  predicate PaddedAt(s: string, i: int, r: string) {
    && 0 <= i <= |s| - |r|
    && r == s[i..i + |r|]
    && (forall k :: 0 <= k < i ==> IsSpace(s[k]))
    && (forall k :: i + |r| <= k < |s| ==> IsSpace(s[k]))
  }

  /** Whitespace around a string does not change what `Strip` returns. */
  lemma {:induction false} StripPadded(pre: string, m: string, post: string)
    requires forall i :: 0 <= i < |pre| ==> IsSpace(pre[i])
    requires forall i :: 0 <= i < |post| ==> IsSpace(post[i])
    ensures Strip(pre + m + post) == Strip(m)
  {
    TrimStartPadded(pre, m + post);
    assert pre + m + post == pre + (m + post);
    var t := TrimStart(m);
    assert TrimStart(m + post) == if t == [] then TrimStart(post) else t + post by {
      TrimStartAppend(m, post);
    }
    if t == [] {
      assert TrimStart(post) == [] by { TrimStartAllSpace(post); }
    } else {
      TrimEndPadded(t, post);
    }
  }

  lemma {:induction false} TrimStartPadded(pre: string, s: string)
    requires forall i :: 0 <= i < |pre| ==> IsSpace(pre[i])
    ensures TrimStart(pre + s) == TrimStart(s)
  {
    if pre != [] {
      var t := pre + s;
      assert t[0] == pre[0] && IsSpace(t[0]);
      assert t[1..] == pre[1..] + s;
      assert TrimStart(t) == TrimStart(t[1..]);
      TrimStartPadded(pre[1..], s);
    } else {
      assert pre + s == s;
    }
  }

  lemma {:induction false} TrimStartAllSpace(s: string)
    requires forall i :: 0 <= i < |s| ==> IsSpace(s[i])
    ensures TrimStart(s) == []
  {
    if s != [] {
      TrimStartAllSpace(s[1..]);
    }
  }

  lemma {:induction false} TrimStartAppend(m: string, post: string)
    ensures TrimStart(m + post) == if TrimStart(m) == [] then TrimStart(post) else TrimStart(m) + post
  {
    if m != [] {
      assert (m + post)[1..] == m[1..] + post;
      if IsSpace(m[0]) {
        TrimStartAppend(m[1..], post);
      }
    } else {
      assert m + post == post;
    }
  }

  lemma {:induction false} TrimEndPadded(s: string, post: string)
    requires forall i :: 0 <= i < |post| ==> IsSpace(post[i])
    requires s != [] && !IsSpace(s[0])
    ensures TrimEnd(s + post) == TrimEnd(s)
  {
    if post != [] {
      assert (s + post)[..|s + post| - 1] == s + post[..|post| - 1];
      TrimEndPadded(s, post[..|post| - 1]);
    } else {
      assert s + post == s;
    }
  }
}
