/**
 * What `convert_resume` promises about its whole output: tidy blank lines
 * and ends, no LaTeX command left, and plain Markdown passed through as it is.
 */
module ConvertProperties {
  import opened Options
  import opened Text
  import opened Patterns
  import opened Substitute
  import opened ConvertResume
  import opened CleanupProperties

  /** Neither end of `s` is whitespace. */
  predicate Trimmed(s: string) {
    s == [] || (!IsSpace(s[0]) && !IsSpace(s[|s| - 1]))
  }

  /**
   * The output holds no run of three or more newlines and begins and ends
   * with something other than whitespace.
   */
  lemma {:induction false} ConvertIsTidy(s: string)
    ensures NoTriple(Convert(s)) && Trimmed(Convert(s))
  {
    var swept := SweepCommands(Unescape(Rewrite(PlusItem, RewriteMacros(StripFrontMatter(s)))));
    CollapseNoTriple(swept, true);
    StripKeepsNoTriple(Rewrite(NewlineRun, swept));
  }

  /** The output holds no backslash followed by an ASCII letter. */
  lemma {:induction false} ConvertLeavesNoCommand(s: string)
    ensures NoCommand(Convert(s))
  {
    var unescaped := Unescape(Rewrite(PlusItem, RewriteMacros(StripFrontMatter(s))));
    var swept := SweepCommands(unescaped);
    SweepLeavesNoCommand(unescaped);
    CollapseKeepsNoCommand(swept, true);
    StripKeepsNoCommand(Rewrite(NewlineRun, swept));
  }

  /**
   * Text with no backslash, no `---` line, no line starting with `+ `, no
   * run of three newlines and no whitespace at either end comes out as it went in.
   */
  lemma {:induction false} ConvertUnchanged(s: string)
    requires '\\' !in s
    requires forall p :: !IsDelimiter(s, p)
    requires forall k :: 0 <= k < |s| ==> !PlusAt(s, k)
    requires NoTriple(s) && Trimmed(s)
    ensures Convert(s) == s
  {
    StripFrontMatterUnchanged(s);
    MacrosUnchanged(s);
    PlusItemUnchanged(s);
    UnescapeUnchanged(s);
    RewriteNoBackslash(CommandWithArg, s);
    RewriteNoBackslash(BareCommand, s);
    assert SweepCommands(s) == s;
    CollapseUnchanged(s);
    StripTrimmed(s);
  }

  /** Every macro step needs a backslash, so text without one passes them all. */
  lemma {:induction false} MacrosUnchanged(s: string)
    requires '\\' !in s
    ensures RewriteMacros(s) == s
  {
    RewriteNoBackslash(VSpace, s);
    RewriteNoBackslash(Href, s);
    RewriteNoBackslash(Mbox, s);
    RewriteNoBackslash(Literal("\\begin{center}", ""), s);
    RewriteNoBackslash(Literal("\\end{center}", ""), s);
    RewriteNoBackslash(Minipage, s);
    RewriteNoBackslash(Literal("\\end{minipage}", ""), s);
    RewriteNoBackslash(Literal("\\centering", ""), s);
    RewriteNoBackslash(Pill, s);
    RewriteNoBackslash(Role, s);
    RewriteNoBackslash(Tech, s);
    RewriteNoBackslash(Edu, s);
    RewriteNoBackslash(Itemize, s);
  }

  /** Every unescaping replacement needs a backslash. */
  lemma {:induction false} UnescapeUnchanged(s: string)
    requires '\\' !in s
    ensures Unescape(s) == s
  {
    RewriteNoBackslash(Literal("\\&", "&"), s);
    RewriteNoBackslash(Literal("\\#", "#"), s);
    assert '\\' in "C\\#";
    RewriteNoBackslash(Literal("C\\#", "C#"), s);
  }

  /** Text without a run of three newlines is left as it is by the collapse. */
  lemma {:induction false} CollapseUnchanged(s: string)
    requires NoTriple(s)
    ensures Rewrite(NewlineRun, s) == s
  {
    forall k | 0 <= k < |s| ensures Match(NewlineRun, s[k..], LineStart(s, k)).None? {
      var t := s[k..];
      if 3 <= |t| {
        assert t[0] == s[k] && t[1] == s[k + 1] && t[2] == s[k + 2];
        assert !TripleAt(s, k);
      }
    }
    RewriteUnchanged(NewlineRun, s);
  }
}
