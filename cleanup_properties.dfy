/**
 * The clean-up steps after the macros: the `+ ` list markers, the escaped
 * characters, the sweep of leftover commands, the collapse of blank lines
 * and the final strip.
 */
module CleanupProperties {
  import opened Options
  import opened Text
  import opened Patterns
  import opened Substitute
  import opened StepProperties
  import opened ConvertResume

  // ---------------------------------------------------------------------
  // `^\+ ` with MULTILINE

  /** A line of `s` starts at index `k` with `+ `. */
  predicate PlusAt(s: string, k: int) {
    LineStart(s, k) && 0 <= k && "+ " <= s[k..]
  }

  /**
   * Reference definition of the list-marker step: the `+` that starts a
   * line and is followed by a space becomes `-`; every other character
   * stays where it is.
   */
  function Dashed(s: string): (r: string)
    ensures |r| == |s|
  {
    seq(|s|, k requires 0 <= k < |s| => if PlusAt(s, k) then '-' else s[k])
  }

  /** The scan from index `k` on writes the reference definition from `k` on. */
  lemma {:induction false} DashedFrom(s: string, k: nat)
    requires k <= |s|
    ensures Sub(MatcherOf(PlusItem), s[k..], LineStart(s, k)) == Dashed(s)[k..]
    decreases |s| - k
  {
    var m := MatcherOf(PlusItem);
    var d := Dashed(s);
    if k < |s| {
      var t := s[k..];
      if PlusAt(s, k) {
        DashedHit(s, k);
        DashedFrom(s, k + 2);
      } else {
        DashedMiss(s, k);
        DashedFrom(s, k + 1);
      }
    } else {
      assert s[k..] == [] && d[k..] == [];
    }
  }

  /** A `+ ` at a line start: the scan writes `- ` and resumes two characters on. */
  lemma DashedHit(s: string, k: nat)
    requires k < |s| && PlusAt(s, k)
    ensures k + 2 <= |s|
    ensures Sub(MatcherOf(PlusItem), s[k..], LineStart(s, k))
      == "- " + Sub(MatcherOf(PlusItem), s[k + 2..], LineStart(s, k + 2))
    ensures Dashed(s)[k..] == "- " + Dashed(s)[k + 2..]
  {
    var t := s[k..];
    var d := Dashed(s);
    assert MatcherOf(PlusItem)(t, LineStart(s, k)) == Some(Hit(2, "- "));
    assert t[1] == s[k + 1] == ' ';
    assert t[2..] == s[k + 2..];
    assert !PlusAt(s, k + 1);
    assert d[k..] == "- " + d[k + 2..];
  }

  /** Elsewhere the scan copies one character and moves on. */
  lemma DashedMiss(s: string, k: nat)
    requires k < |s| && !PlusAt(s, k)
    ensures Sub(MatcherOf(PlusItem), s[k..], LineStart(s, k))
      == [s[k]] + Sub(MatcherOf(PlusItem), s[k + 1..], LineStart(s, k + 1))
    ensures Dashed(s)[k..] == [s[k]] + Dashed(s)[k + 1..]
  {
    var t := s[k..];
    var d := Dashed(s);
    assert MatcherOf(PlusItem)(t, LineStart(s, k)) == None;
    assert t[1..] == s[k + 1..];
    assert (t[0] == '\n') == LineStart(s, k + 1);
    assert d[k..] == [s[k]] + d[k + 1..];
  }

  /**
   * `re.sub(r'^\+ ', '- ', s, flags=re.MULTILINE)` changes exactly the
   * `+` that begin a line before a space, each into `-`.
   */
  lemma {:induction false} PlusItemDashed(s: string)
    ensures Rewrite(PlusItem, s) == Dashed(s)
  {
    DashedFrom(s, 0);
    assert s[0..] == s && Dashed(s)[0..] == Dashed(s);
  }

  /** Text in which no line starts with `+ ` is left as it is by the list-marker step. */
  lemma {:induction false} PlusItemUnchanged(s: string)
    requires forall k :: 0 <= k < |s| ==> !PlusAt(s, k)
    ensures Rewrite(PlusItem, s) == s
  {
    PlusItemDashed(s);
  }

  // ---------------------------------------------------------------------
  // Escaped characters

  /** Every match of the `C\#` replacement begins with `C` and a backslash. */
  lemma CSharpBegins()
    ensures BeginsWithPair(MatcherOf(Literal("C\\#", "C#")), 'C', '\\')
    ensures Unanchored(MatcherOf(Literal("C\\#", "C#")))
  {
    forall t, b | Fits(MatcherOf(Literal("C\\#", "C#"))(t, b), t)
      ensures 1 < |t| && t[0] == 'C' && t[1] == '\\'
    {
      assert "C\\#" <= t;
      assert t[1] == "C\\#"[1];
    }
    MatcherOfUnanchored(Literal("C\\#", "C#"));
  }

  /** Backslash-free text that does not end in `C` passes the `C\#` replacement untouched. */
  lemma {:induction false} CSharpSkip(p: string, x: string)
    requires '\\' !in p && (p == [] || p[|p| - 1] != 'C')
    ensures Rewrite(Literal("C\\#", "C#"), p + x) == p + Rewrite(Literal("C\\#", "C#"), x)
  {
    CSharpBegins();
    SubSkipPair(MatcherOf(Literal("C\\#", "C#")), 'C', '\\', p, x, true);
  }

  /** `C\#` after backslash-free text is replaced by `C#`, and the rest is scanned on. */
  lemma {:induction false} CSharpRewritten(a: string, b: string)
    requires '\\' !in a
    ensures Rewrite(Literal("C\\#", "C#"), a + "C\\#" + b) == a + "C#" + Rewrite(Literal("C\\#", "C#"), b)
  {
    var m := MatcherOf(Literal("C\\#", "C#"));
    var t := "C\\#" + b;
    assert a + "C\\#" + b == a + t;
    CSharpBegins();
    SubSkipPair(m, 'C', '\\', a, t, true);
    assert "C\\#" <= t && t[3..] == b;
    SubHit(m, t, Hit(3, "C#"));
  }

  /** The `\&` replacement passes over `\#` and goes on after it. */
  lemma {:induction false} AmpSkipsHash(p: string, b: string)
    requires '\\' !in p
    ensures Rewrite(Literal("\\&", "&"), p + "\\#" + b) == p + "\\#" + Rewrite(Literal("\\&", "&"), b)
  {
    var amp := Literal("\\&", "&");
    var t := "\\#" + b;
    assert p + "\\#" + b == p + t;
    assert Match(amp, t, true).None? by {
      assert !("\\&" <= t) by { assert t[1] == '#'; }
    }
    RewriteMiss(amp, p, t);
    assert t[1..] == "#" + b;
    RewriteSkip(amp, "#", b);
  }

  /**
   * `C\#` becomes `C#`, whatever follows: the `\&` replacement at
   * scripts/convert_resume.py:87 passes over it, the `\#` replacement at
   * scripts/convert_resume.py:88 already turns it into `C#`, and the `C\#`
   * replacement at scripts/convert_resume.py:89 finds nothing left of it.
   * The rest is unescaped in the same way.
   */
  lemma {:induction false} UnescapeCSharp(a: string, b: string)
    requires '\\' !in a
    ensures Unescape(a + "C\\#" + b) == a + "C#" + Unescape(b)
  {
    var amp := Literal("\\&", "&");
    var hash := Literal("\\#", "#");
    var b1 := Rewrite(amp, b);
    var b2 := Rewrite(hash, b1);
    assert a + "C\\#" + b == (a + "C") + "\\#" + b;
    AmpSkipsHash(a + "C", b);
    LiteralRewritten("\\#", "#", a + "C", b1);
    assert (a + "C") + "#" + b2 == (a + "C#") + b2;
    CSharpSkip(a + "C#", b2);
  }

  /**
   * A case where the `C\#` replacement at scripts/convert_resume.py:89 fires:
   * `C\\#`, with two backslashes, which the `\#` replacement at
   * scripts/convert_resume.py:88 turns into `C\#`.
   */
  lemma {:induction false} UnescapeDoubleBackslash(a: string, b: string)
    requires '\\' !in a && '\\' !in b
    ensures Unescape(a + "C\\\\#" + b) == a + "C#" + b
  {
    DoubleBackslashAmp(a, b);
    DoubleBackslashHash(a, b);
    CSharpRewritten(a, b);
    RewriteNoBackslash(Literal("C\\#", "C#"), b);
  }

  /** The `\&` step leaves `C\\#` as it is: neither backslash is followed by `&`. */
  lemma {:induction false} DoubleBackslashAmp(a: string, b: string)
    requires '\\' !in a && '\\' !in b
    ensures Rewrite(Literal("\\&", "&"), a + "C\\\\#" + b) == a + "C\\\\#" + b
  {
    var amp := Literal("\\&", "&");
    var t := "\\\\#" + b;
    assert a + "C\\\\#" + b == (a + "C") + t;
    assert t[1..] == [] + "\\#" + b;
    assert Match(amp, t, true).None? by {
      assert !("\\&" <= t) by { assert t[1] == '\\'; }
    }
    RewriteMiss(amp, a + "C", t);
    AmpSkipsHash([], b);
    RewriteNoBackslash(amp, b);
  }

  /** The `\#` step turns `C\\#` into `C\#`: only the second backslash is followed by `#`. */
  lemma {:induction false} DoubleBackslashHash(a: string, b: string)
    requires '\\' !in a && '\\' !in b
    ensures Rewrite(Literal("\\#", "#"), a + "C\\\\#" + b) == a + "C\\#" + b
  {
    var hash := Literal("\\#", "#");
    var t := "\\\\#" + b;
    assert a + "C\\\\#" + b == (a + "C") + t;
    assert t[1..] == [] + "\\#" + b;
    assert Match(hash, t, true).None? by {
      assert !("\\#" <= t) by { assert t[1] == '\\'; }
    }
    RewriteMiss(hash, a + "C", t);
    LiteralRewritten("\\#", "#", [], b);
    RewriteNoBackslash(hash, b);
  }

  // ---------------------------------------------------------------------
  // Leftover commands

  /** No backslash in `s` is followed by an ASCII letter. */
  predicate NoCommand(s: string) {
    forall i :: 0 <= i < |s| - 1 ==> !CommandAt(s, i)
  }

  /** A backslash at index `i` of `s` is followed by an ASCII letter. */
  predicate CommandAt(s: string, i: nat)
    requires i < |s| - 1
  {
    s[i] == '\\' && IsLetter(s[i + 1])
  }

  /** `s` does not begin with an ASCII letter. */
  predicate StartsNonLetter(s: string) {
    s == [] || !IsLetter(s[0])
  }

  /**
   * `re.sub(r'\\[a-zA-Z]+', '', s)` leaves no backslash before a letter:
   * a backslash it keeps is followed by a non-letter, and what follows a
   * deleted command starts with a non-letter too. Its output also begins
   * with a letter only where its input does.
   */
  lemma {:induction false} BareSweepLeavesNoCommand(u: string, bol: bool)
    ensures NoCommand(Sub(MatcherOf(BareCommand), u, bol))
    ensures StartsNonLetter(u) ==> StartsNonLetter(Sub(MatcherOf(BareCommand), u, bol))
    decreases |u|
  {
    var m := MatcherOf(BareCommand);
    if u != [] {
      var r := m(u, bol);
      if Fits(r, u) {
        var n := r.value.len;
        BareHit(u, bol);
        BareSweepLeavesNoCommand(u[n..], u[n - 1] == '\n');
        assert Sub(m, u, bol) == [] + Sub(m, u[n..], u[n - 1] == '\n');
        assert [] + Sub(m, u[n..], u[n - 1] == '\n') == Sub(m, u[n..], u[n - 1] == '\n');
      } else {
        BareMiss(u, bol);
        BareSweepLeavesNoCommand(u[1..], u[0] == '\n');
        CopyKeepsNoCommand(u[0], Sub(m, u[1..], u[0] == '\n'));
      }
    }
  }

  /** A bare command is deleted, and what follows it starts with a non-letter. */
  lemma BareHit(u: string, bol: bool)
    requires Fits(MatcherOf(BareCommand)(u, bol), u)
    ensures var h := MatcherOf(BareCommand)(u, bol).value;
      u[0] == '\\' && h.rep == [] && StartsNonLetter(u[h.len..])
  {
    var n := Run(u[1..], Letter);
    assert u[1 + n..] == u[1..][n..];
  }

  /** A backslash the sweep keeps is not followed by a letter. */
  lemma BareMiss(u: string, bol: bool)
    requires u != [] && !Fits(MatcherOf(BareCommand)(u, bol), u)
    ensures u[0] == '\\' ==> StartsNonLetter(u[1..])
  {
  }

  /** A copied character in front of command-free text keeps it command-free. */
  lemma CopyKeepsNoCommand(c: char, rest: string)
    requires NoCommand(rest) && (c == '\\' ==> StartsNonLetter(rest))
    ensures NoCommand([c] + rest)
    ensures !IsLetter(c) ==> StartsNonLetter([c] + rest)
  {
    var out := [c] + rest;
    forall i | 0 <= i < |out| - 1 ensures !CommandAt(out, i) {
      assert out[i + 1] == rest[i];
      if i > 0 {
        assert out[i] == rest[i - 1];
        assert !CommandAt(rest, i - 1);
      }
    }
  }

  /** After the sweep of bare commands, no backslash is followed by a letter. */
  lemma {:induction false} SweepLeavesNoCommand(s: string)
    ensures NoCommand(SweepCommands(s))
  {
    BareSweepLeavesNoCommand(Rewrite(CommandWithArg, s), true);
  }

  /** A non-empty run of ASCII letters: the name of a command. */
  predicate CommandName(name: string) {
    |name| > 0 && forall i :: 0 <= i < |name| ==> IsLetter(name[i])
  }

  /** A command name ends where a non-letter, or the text, does. */
  lemma {:induction false} NameRun(name: string, rest: string)
    requires CommandName(name) && StartsNonLetter(rest)
    ensures Run(name + rest, Letter) == |name|
  {
    if rest == [] {
      assert name + rest == name;
      assert forall i :: 0 <= i < |name| ==> Letter.Has(name[i]);
    } else {
      RunOf(name, rest, Letter);
    }
  }

  lemma {:induction false} CommandShape(name: string, tail: string)
    ensures var t := ("\\" + name) + tail;
      && "\\" <= t && t[1..] == name + tail && t[1 + |name|..] == tail
  {
    var t := ("\\" + name) + tail;
    assert t[..1] == "\\";
    assert t[1..] == name + tail;
  }

  lemma CommandWithArgAtOf(t: string, n: nat, x: string, m: nat)
    requires "\\" <= t && 0 < n && 1 + n <= |t| && Run(t[1..], Letter) == n
    requires ArgsRead(t[1 + n..], 1, Parsed([x], m))
    ensures CommandWithArgAt(t) == Some(Hit(1 + n + m, ""))
  {
  }

  /** The match of `\NAME{X}`: the whole command, replaced by nothing. */
  lemma {:induction false} CommandWithArgMatch(name: string, x: string, b: string)
    requires CommandName(name) && '}' !in x
    ensures CommandWithArgAt(("\\" + name) + ("{" + x + "}" + b))
      == Some(Hit(1 + |name| + |"{" + x + "}"|, ""))
  {
    var tail := "{" + x + "}" + b;
    CommandShape(name, tail);
    CommandWithArgArgs(name, x, b);
    CommandWithArgAtOf(("\\" + name) + tail, |name|, x, |"{" + x + "}"|);
  }

  /** The name is a run of letters, and the braced text after it is read whole. */
  lemma {:induction false} CommandWithArgArgs(name: string, x: string, b: string)
    requires CommandName(name) && '}' !in x
    ensures Run(name + ("{" + x + "}" + b), Letter) == |name|
    ensures ArgsRead("{" + x + "}" + b, 1, Parsed([x], |"{" + x + "}"|))
  {
    NameRun(name, "{" + x + "}" + b);
    OneArg(x, b);
  }

  /** `\NAME{X}` after backslash-free text is deleted, and the rest is swept on. */
  lemma {:induction false} CommandWithArgRewritten(a: string, name: string, x: string, b: string)
    requires '\\' !in a && CommandName(name) && '}' !in x
    ensures Rewrite(CommandWithArg, a + ("\\" + name + "{" + x + "}") + b)
      == a + Rewrite(CommandWithArg, b)
  {
    var src := "\\" + name + "{" + x + "}";
    assert src + b == ("\\" + name) + ("{" + x + "}" + b);
    assert |src| == 1 + |name| + |"{" + x + "}"|;
    CommandWithArgMatch(name, x, b);
    RewriteAt(CommandWithArg, a, src, b, Hit(|src|, ""));
    assert a + "" == a;
  }

  lemma BareCommandAtOf(t: string, n: nat)
    requires "\\" <= t && 0 < n && Run(t[1..], Letter) == n
    ensures BareCommandAt(t) == Some(Hit(1 + n, ""))
  {
  }

  /**
   * `\NAME` after backslash-free text, with no letter after it, is deleted,
   * and the rest is swept on.
   */
  lemma {:induction false} BareCommandRewritten(a: string, name: string, b: string)
    requires '\\' !in a && CommandName(name) && StartsNonLetter(b)
    ensures Rewrite(BareCommand, a + ("\\" + name) + b) == a + Rewrite(BareCommand, b)
  {
    var src := "\\" + name;
    CommandShape(name, b);
    NameRun(name, b);
    BareCommandAtOf(src + b, |name|);
    RewriteAt(BareCommand, a, src, b, Hit(|src|, ""));
    assert a + "" == a;
  }

  // ---------------------------------------------------------------------
  // Blank lines

  /** `s` holds no run of three or more newlines. */
  predicate NoTriple(s: string) {
    forall i :: 0 <= i < |s| - 2 ==> !TripleAt(s, i)
  }

  /** Three newlines start at index `i` of `s`. */
  predicate TripleAt(s: string, i: nat)
    requires i < |s| - 2
  {
    s[i] == '\n' && s[i + 1] == '\n' && s[i + 2] == '\n'
  }

  /** `s` begins with exactly `n` newlines. */
  predicate LeadingNewlines(s: string, n: nat) {
    Run(s, Newline) == n
  }

  /** `s` is made of newlines only. */
  predicate AllNewlines(s: string) {
    forall i :: 0 <= i < |s| ==> s[i] == '\n'
  }

  /** Every match of the blank-line rule begins with a newline. */
  lemma NewlineRunBegins()
    ensures BeginsWith(MatcherOf(NewlineRun), '\n') && Unanchored(MatcherOf(NewlineRun))
  {
    forall t, b | Fits(MatcherOf(NewlineRun)(t, b), t) ensures t[0] == '\n' {
      assert Run(t, Newline) > 0;
    }
  }

  /** A maximal run of three or more newlines becomes exactly two. */
  lemma {:induction false} CollapseHit(nl: string, b: string)
    requires |nl| >= 3 && AllNewlines(nl) && (b == [] || b[0] != '\n')
    ensures Sub(MatcherOf(NewlineRun), nl + b, true) == "\n\n" + Sub(MatcherOf(NewlineRun), b, true)
  {
    var t := nl + b;
    if b == [] {
      assert t == nl;
      assert forall i :: 0 <= i < |nl| ==> Newline.Has(nl[i]);
    } else {
      RunOf(nl, b, Newline);
    }
    assert MatcherOf(NewlineRun)(t, true) == Some(Hit(|nl|, "\n\n"));
    assert t[|nl|..] == b;
    MatcherOfUnanchored(NewlineRun);
    SubHit(MatcherOf(NewlineRun), t, Hit(|nl|, "\n\n"));
  }

  /**
   * A run of three or more newlines after newline-free text becomes one
   * blank line (two newlines); the text before it is kept and the rest is
   * collapsed in the same way.
   */
  lemma {:induction false} CollapseRun(a: string, nl: string, b: string)
    requires '\n' !in a && |nl| >= 3 && AllNewlines(nl) && (b == [] || b[0] != '\n')
    ensures Rewrite(NewlineRun, a + nl + b) == a + "\n\n" + Rewrite(NewlineRun, b)
  {
    assert a + nl + b == a + (nl + b);
    NewlineRunBegins();
    SubSkip(MatcherOf(NewlineRun), '\n', a, nl + b, true);
    CollapseHit(nl, b);
  }

  /**
   * `re.sub(r'\n{3,}', '\n\n', s)` leaves no run of three newlines: each
   * maximal run of three or more becomes two, and the output begins with
   * that many newlines: the input's leading ones, capped at two.
   */
  lemma {:induction false} CollapseNoTriple(u: string, bol: bool)
    ensures NoTriple(Sub(MatcherOf(NewlineRun), u, bol))
    ensures var n := Run(u, Newline);
      LeadingNewlines(Sub(MatcherOf(NewlineRun), u, bol), if n >= 3 then 2 else n)
    decreases |u|
  {
    var m := MatcherOf(NewlineRun);
    var out := Sub(m, u, bol);
    var n := Run(u, Newline);
    if u != [] {
      if n >= 3 {
        var rest := u[n..];
        var tail := Sub(m, rest, u[n - 1] == '\n');
        assert m(u, bol) == Some(Hit(n, "\n\n"));
        assert out == "\n\n" + tail;
        assert Run(rest, Newline) == 0 by {
          assert rest == [] || rest[0] == u[n];
        }
        CollapseNoTriple(rest, u[n - 1] == '\n');
        TwoNewlinesKeepNoTriple(tail);
      } else {
        var tail := Sub(m, u[1..], u[0] == '\n');
        assert m(u, bol) == None;
        assert out == [u[0]] + tail;
        CollapseNoTriple(u[1..], u[0] == '\n');
        LeadsAfter(u, tail);
        CopyKeepsNoTriple(u[0], tail, n);
      }
    }
  }

  /** Two newlines in front of text that has no triple and starts with none. */
  lemma TwoNewlinesKeepNoTriple(tail: string)
    requires NoTriple(tail) && LeadingNewlines(tail, 0)
    ensures NoTriple("\n\n" + tail) && LeadingNewlines("\n\n" + tail, 2)
  {
    var out := "\n\n" + tail;
    LeadsTwo(tail);
    forall i | 0 <= i < |out| - 2 ensures !TripleAt(out, i) {
      if i >= 2 {
        assert out[i] == tail[i - 2] && out[i + 1] == tail[i - 1] && out[i + 2] == tail[i];
        assert !TripleAt(tail, i - 2);
      } else {
        assert out[2] == tail[0];
      }
    }
  }

  /** A character in front of text without a triple, leaving fewer than three leading newlines. */
  lemma CopyKeepsNoTriple(c: char, tail: string, n: nat)
    requires NoTriple(tail) && LeadingNewlines([c] + tail, n) && n < 3
    ensures NoTriple([c] + tail)
  {
    var out := [c] + tail;
    forall i | 0 <= i < |out| - 2 ensures !TripleAt(out, i) {
      if i > 0 {
        assert out[i] == tail[i - 1] && out[i + 1] == tail[i] && out[i + 2] == tail[i + 1];
        assert !TripleAt(tail, i - 1);
      } else {
        ThreeNewlinesRun(out);
      }
    }
  }

  /** Two newlines in front of text that starts with none: exactly two leading newlines. */
  lemma LeadsTwo(tail: string)
    requires LeadingNewlines(tail, 0)
    ensures LeadingNewlines("\n\n" + tail, 2)
  {
    var s := "\n\n" + tail;
    assert s[2..] == tail;
    assert s[1..][1..] == tail;
  }

  /** One copied character in front of the collapsed rest of the run. */
  lemma LeadsAfter(u: string, tail: string)
    requires u != [] && Run(u, Newline) < 3
    requires var n := Run(u[1..], Newline); LeadingNewlines(tail, if n >= 3 then 2 else n)
    ensures LeadingNewlines([u[0]] + tail, Run(u, Newline))
  {
    assert ([u[0]] + tail)[1..] == tail;
  }

  /** Three newlines at the head of a text are a run of at least three. */
  lemma ThreeNewlinesRun(s: string)
    requires |s| >= 3
    ensures s[0] == '\n' && s[1] == '\n' && s[2] == '\n' ==> Run(s, Newline) >= 3
  {
    assert s[1..][0] == s[1] && s[1..][1..][0] == s[2];
  }

  /**
   * The collapse of blank lines creates no command: its output starts with
   * the character its input starts with, and it inserts only newlines.
   */
  lemma {:induction false} CollapseKeepsNoCommand(u: string, bol: bool)
    requires NoCommand(u)
    ensures NoCommand(Sub(MatcherOf(NewlineRun), u, bol))
    ensures u != [] ==> Sub(MatcherOf(NewlineRun), u, bol) != [] && Sub(MatcherOf(NewlineRun), u, bol)[0] == u[0]
    decreases |u|
  {
    var m := MatcherOf(NewlineRun);
    if u != [] {
      var n := Run(u, Newline);
      if n >= 3 {
        assert m(u, bol) == Some(Hit(n, "\n\n"));
        NoCommandSuffix(u, n);
        CollapseKeepsNoCommand(u[n..], u[n - 1] == '\n');
        NewlinesKeepNoCommand(Sub(m, u[n..], u[n - 1] == '\n'));
      } else {
        assert m(u, bol) == None;
        NoCommandSuffix(u, 1);
        CollapseKeepsNoCommand(u[1..], u[0] == '\n');
        var tail := Sub(m, u[1..], u[0] == '\n');
        if u[0] == '\\' && |u| > 1 {
          assert !CommandAt(u, 0);
          assert u[1..][0] == u[1] && !IsLetter(u[1]);
        }
        CopyKeepsNoCommand(u[0], tail);
      }
    }
  }

  lemma NoCommandSuffix(u: string, k: nat)
    requires NoCommand(u) && k <= |u|
    ensures NoCommand(u[k..])
  {
    var t := u[k..];
    forall i | 0 <= i < |t| - 1 ensures !CommandAt(t, i) {
      assert t[i] == u[k + i] && t[i + 1] == u[k + i + 1];
      assert !CommandAt(u, k + i);
    }
  }

  lemma NewlinesKeepNoCommand(tail: string)
    requires NoCommand(tail)
    ensures NoCommand("\n\n" + tail)
  {
    var out := "\n\n" + tail;
    forall i | 2 <= i < |out| - 1 ensures !CommandAt(out, i) {
      assert out[i] == tail[i - 2] && out[i + 1] == tail[i - 1];
      assert !CommandAt(tail, i - 2);
    }
  }

  // ---------------------------------------------------------------------
  // The final strip

  /** Stripping keeps a text free of triple newlines. */
  lemma {:induction false} StripKeepsNoTriple(s: string)
    requires NoTriple(s)
    ensures NoTriple(Strip(s))
  {
    var r := Strip(s);
    var i := StripSlice(s);
    SliceKeepsNoTriple(s, r, i);
  }

  /** Stripping keeps a text free of commands. */
  lemma {:induction false} StripKeepsNoCommand(s: string)
    requires NoCommand(s)
    ensures NoCommand(Strip(s))
  {
    var r := Strip(s);
    var i := StripSlice(s);
    SliceKeepsNoCommand(s, r, i);
  }

  /** The strip of a text is one of its slices. */
  lemma StripSlice(s: string) returns (i: nat)
    ensures i + |Strip(s)| <= |s| && Strip(s) == s[i..i + |Strip(s)|]
  {
    var r := Strip(s);
    var k :| PaddedAt(s, k, r);
    i := k;
  }

  /** A slice of a text free of triple newlines is free of them too. */
  lemma SliceKeepsNoTriple(s: string, t: string, i: nat)
    requires i + |t| <= |s| && t == s[i..i + |t|] && NoTriple(s)
    ensures NoTriple(t)
  {
    forall k | 0 <= k < |t| - 2 ensures !TripleAt(t, k) {
      assert t[k] == s[i + k] && t[k + 1] == s[i + k + 1] && t[k + 2] == s[i + k + 2];
      assert !TripleAt(s, i + k);
    }
  }

  /** A slice of a text free of commands is free of them too. */
  lemma SliceKeepsNoCommand(s: string, t: string, i: nat)
    requires i + |t| <= |s| && t == s[i..i + |t|] && NoCommand(s)
    ensures NoCommand(t)
  {
    forall k | 0 <= k < |t| - 1 ensures !CommandAt(t, k) {
      assert t[k] == s[i + k] && t[k + 1] == s[i + k + 1];
      assert !CommandAt(s, i + k);
    }
  }

  /** Text without whitespace at either end is its own strip. */
  lemma {:induction false} StripTrimmed(s: string)
    requires s == [] || (!IsSpace(s[0]) && !IsSpace(s[|s| - 1]))
    ensures Strip(s) == s
  {
  }
}
