/**
 * What each rewrite step does to the construct it targets: the construct
 * becomes its markdown form, text before it is kept, and the scan goes on
 * after it.
 */
module StepProperties {
  import opened Options
  import opened Text
  import opened Patterns
  import opened Substitute

  /**
   * `Args` reads `n` arguments from the head of `t` as `p`. Lemmas pass
   * this fact to one another through the predicate rather than as the
   * equation itself.
   */
  predicate ArgsRead(t: string, n: nat, p: Parsed) {
    Args(t, n) == Some(p)
  }

  /** The first `}` at or after index `from` of `t` is at index `k`. */
  predicate ClosesAt(t: string, from: nat, k: nat)
    requires from <= |t|
  {
    Find("}", t, from) == Some(k)
  }

  /** The first `}` at or after `from` closes a `}`-free run `x`. */
  lemma {:induction false} FindClose(t: string, from: nat, x: string)
    requires from + |x| < |t| && t[from..from + |x|] == x && '}' !in x && t[from + |x|] == '}'
    ensures ClosesAt(t, from, from + |x|)
  {
    assert t[from + |x|..][..1] == "}";
    assert OccursAt("}", t, from + |x|);
    assert forall k :: from <= k < from + |x| ==> !OccursAt("}", t, k) by {
      forall k | from <= k < from + |x| ensures !OccursAt("}", t, k) {
        assert t[k] == x[k - from];
        assert t[k..][0] == t[k];
      }
    }
  }

  /** A `}`-free text in braces is read back as one argument. */
  lemma {:induction false} BraceArgOf(x: string, rest: string)
    requires '}' !in x
    ensures BraceArg("{" + x + "}" + rest) == Some(Arg(x, |x| + 2))
  {
    var t := "{" + x + "}" + rest;
    assert t[1..1 + |x|] == x && t[1 + |x|] == '}';
    FindClose(t, 1, x);
    assert "{" <= t;
  }

  /** One step of `Args`: a brace argument, then the remaining ones. */
  lemma ArgsCons(t: string, n: nat, a: Arg, p: Parsed, all: Parsed)
    requires n > 0 && BraceArg(t) == Some(a) && a.len <= |t| && ArgsRead(t[a.len..], n - 1, p)
    requires all.args == [a.text] + p.args && all.len == a.len + p.len
    ensures ArgsRead(t, n, all)
  {
  }

  /** One brace argument. */
  lemma {:induction false} OneArg(x: string, rest: string)
    requires '}' !in x
    ensures ArgsRead("{" + x + "}" + rest, 1, Parsed([x], |"{" + x + "}"|))
  {
    var t := "{" + x + "}" + rest;
    BraceArgOf(x, rest);
    assert t[|x| + 2..] == rest;
    assert [x] + [] == [x];
    ArgsCons(t, 1, Arg(x, |x| + 2), Parsed([], 0), Parsed([x], |"{" + x + "}"|));
  }

  /** Two brace arguments in a row. */
  lemma {:induction false} TwoArgs(x: string, y: string, rest: string)
    requires '}' !in x && '}' !in y
    ensures ArgsRead("{" + x + "}{" + y + "}" + rest, 2, Parsed([x, y], |"{" + x + "}{" + y + "}"|))
  {
    var tail := "{" + y + "}" + rest;
    var t := "{" + x + "}" + tail;
    assert "{" + x + "}{" + y + "}" + rest == t;
    BraceArgOf(x, tail);
    assert t[|x| + 2..] == tail;
    OneArg(y, rest);
    assert [x] + [y] == [x, y];
    ArgsCons(t, 2, Arg(x, |x| + 2), Parsed([y], |"{" + y + "}"|), Parsed([x, y], |"{" + x + "}{" + y + "}"|));
  }

  /** Three brace arguments in a row. */
  lemma {:induction false} ThreeArgs(x: string, y: string, z: string, rest: string)
    requires '}' !in x && '}' !in y && '}' !in z
    ensures ArgsRead("{" + x + "}{" + y + "}{" + z + "}" + rest, 3,
      Parsed([x, y, z], |"{" + x + "}{" + y + "}{" + z + "}"|))
  {
    var tail := "{" + y + "}{" + z + "}" + rest;
    var t := "{" + x + "}" + tail;
    assert "{" + x + "}{" + y + "}{" + z + "}" + rest == t;
    BraceArgOf(x, tail);
    assert t[|x| + 2..] == tail;
    TwoArgs(y, z, rest);
    assert [x] + [y, z] == [x, y, z];
    ArgsCons(t, 3, Arg(x, |x| + 2), Parsed([y, z], |"{" + y + "}{" + z + "}"|),
      Parsed([x, y, z], |"{" + x + "}{" + y + "}{" + z + "}"|));
  }

  /** `CommandArgs` is the command name, then `Args`. */
  lemma CommandArgsUnfold(head: string, n: nat, t: string, p: Parsed)
    requires head <= t && ArgsRead(t[|head|..], n, p)
    ensures CommandArgs(head, n, t) == Some(Parsed(p.args, |head| + p.len))
  {
  }

  /** A command name followed by arguments that `Args` reads. */
  lemma {:induction false} CommandArgsOf(head: string, t: string, n: nat, p: Parsed)
    requires ArgsRead(t, n, p)
    ensures CommandArgs(head, n, head + t) == Some(Parsed(p.args, |head| + p.len))
  {
    assert head <= head + t;
    assert (head + t)[|head|..] == t;
    CommandArgsUnfold(head, n, head + t, p);
  }

  // Each construct below is taken apart in steps kept in separate lemmas,
  // so that no proof mixes string equations with the matchers: the source
  // splits into the command name and its arguments, `Args` reads the
  // arguments, and the matcher is unfolded once.

  lemma {:induction false} VSpaceSplit(x: string, b: string)
    ensures ("\\vspace{" + x + "}") + b == "\\vspace" + ("{" + x + "}" + b)
    ensures |"\\vspace{" + x + "}"| == |"{" + x + "}"| + 7
  {
    assert ("\\vspace{" + x + "}") + b == "\\vspace" + ("{" + x + "}" + b);
  }

  lemma VSpaceAtOf(t: string, x: string, n: nat)
    requires CommandArgs("\\vspace", 1, t) == Some(Parsed([x], n))
    ensures VSpaceAt(t) == Some(Hit(n, ""))
  {
  }

  lemma VSpaceAtArgs(t: string, tail: string, x: string, n: nat)
    requires t == "\\vspace" + tail && ArgsRead(tail, 1, Parsed([x], n))
    ensures VSpaceAt(t) == Some(Hit(n + 7, ""))
  {
    CommandArgsOf("\\vspace", tail, 1, Parsed([x], n));
    VSpaceAtOf("\\vspace" + tail, x, n + 7);
  }

  /** The match of `\vspace{X}`: the whole command, replaced by nothing. */
  lemma {:induction false} VSpaceMatch(x: string, b: string)
    requires '}' !in x
    ensures VSpaceAt(("\\vspace{" + x + "}") + b) == Some(Hit(|"\\vspace{" + x + "}"|, ""))
  {
    VSpaceSplit(x, b);
    OneArg(x, b);
    VSpaceAtArgs(("\\vspace{" + x + "}") + b, "{" + x + "}" + b, x, |"{" + x + "}"|);
  }

  /** `\vspace{X}` is deleted; the text around it is kept. */
  lemma {:induction false} VSpaceRewritten(a: string, x: string, b: string)
    requires '\\' !in a && '}' !in x
    ensures Rewrite(VSpace, a + ("\\vspace{" + x + "}") + b) == a + Rewrite(VSpace, b)
  {
    VSpaceMatch(x, b);
    RewriteAt(VSpace, a, "\\vspace{" + x + "}", b, Hit(|"\\vspace{" + x + "}"|, ""));
    assert a + "" == a;
  }

  lemma {:induction false} MboxSplit(x: string, b: string)
    ensures ("\\mbox{" + x + "}") + b == "\\mbox" + ("{" + x + "}" + b)
    ensures |"\\mbox{" + x + "}"| == |"{" + x + "}"| + 5
  {
    assert ("\\mbox{" + x + "}") + b == "\\mbox" + ("{" + x + "}" + b);
  }

  lemma MboxAtOf(t: string, x: string, n: nat)
    requires CommandArgs("\\mbox", 1, t) == Some(Parsed([x], n))
    ensures MboxAt(t) == Some(Hit(n, x))
  {
  }

  lemma MboxAtArgs(t: string, tail: string, x: string, n: nat)
    requires t == "\\mbox" + tail && ArgsRead(tail, 1, Parsed([x], n))
    ensures MboxAt(t) == Some(Hit(n + 5, x))
  {
    CommandArgsOf("\\mbox", tail, 1, Parsed([x], n));
    MboxAtOf("\\mbox" + tail, x, n + 5);
  }

  /** The match of `\mbox{X}`: replaced by `X`. */
  lemma {:induction false} MboxMatch(x: string, b: string)
    requires '}' !in x
    ensures MboxAt(("\\mbox{" + x + "}") + b) == Some(Hit(|"\\mbox{" + x + "}"|, x))
  {
    MboxSplit(x, b);
    OneArg(x, b);
    MboxAtArgs(("\\mbox{" + x + "}") + b, "{" + x + "}" + b, x, |"{" + x + "}"|);
  }

  /** `\mbox{X}` is unwrapped to `X`. */
  lemma {:induction false} MboxRewritten(a: string, x: string, b: string)
    requires '\\' !in a && '}' !in x
    ensures Rewrite(Mbox, a + ("\\mbox{" + x + "}") + b) == a + x + Rewrite(Mbox, b)
  {
    MboxMatch(x, b);
    RewriteAt(Mbox, a, "\\mbox{" + x + "}", b, Hit(|"\\mbox{" + x + "}"|, x));
  }

  lemma {:induction false} TechSplit(x: string, b: string)
    ensures ("\\tech{" + x + "}") + b == "\\tech" + ("{" + x + "}" + b)
    ensures |"\\tech{" + x + "}"| == |"{" + x + "}"| + 5
  {
    assert ("\\tech{" + x + "}") + b == "\\tech" + ("{" + x + "}" + b);
  }

  lemma TechAtOf(t: string, x: string, n: nat)
    requires CommandArgs("\\tech", 1, t) == Some(Parsed([x], n))
    ensures TechAt(t) == Some(Hit(n, "*" + x + "*"))
  {
  }

  lemma TechAtArgs(t: string, tail: string, x: string, n: nat)
    requires t == "\\tech" + tail && ArgsRead(tail, 1, Parsed([x], n))
    ensures TechAt(t) == Some(Hit(n + 5, "*" + x + "*"))
  {
    CommandArgsOf("\\tech", tail, 1, Parsed([x], n));
    TechAtOf("\\tech" + tail, x, n + 5);
  }

  /** The match of `\tech{T}`: replaced by `*T*`. */
  lemma {:induction false} TechMatch(x: string, b: string)
    requires '}' !in x
    ensures TechAt(("\\tech{" + x + "}") + b) == Some(Hit(|"\\tech{" + x + "}"|, "*" + x + "*"))
  {
    TechSplit(x, b);
    OneArg(x, b);
    TechAtArgs(("\\tech{" + x + "}") + b, "{" + x + "}" + b, x, |"{" + x + "}"|);
  }

  /** `\tech{T}` becomes the emphasis `*T*`. */
  lemma {:induction false} TechRewritten(a: string, x: string, b: string)
    requires '\\' !in a && '}' !in x
    ensures Rewrite(Tech, a + ("\\tech{" + x + "}") + b) == a + ("*" + x + "*") + Rewrite(Tech, b)
  {
    TechMatch(x, b);
    RewriteAt(Tech, a, "\\tech{" + x + "}", b, Hit(|"\\tech{" + x + "}"|, "*" + x + "*"));
  }

  lemma {:induction false} HrefSplit(u: string, v: string, b: string)
    ensures ("\\href{" + u + "}{" + v + "}") + b == "\\href" + ("{" + u + "}{" + v + "}" + b)
    ensures |"\\href{" + u + "}{" + v + "}"| == |"{" + u + "}{" + v + "}"| + 5
  {
    assert ("\\href{" + u + "}{" + v + "}") + b == "\\href" + ("{" + u + "}{" + v + "}" + b);
  }

  lemma HrefAtOf(t: string, u: string, v: string, n: nat)
    requires CommandArgs("\\href", 2, t) == Some(Parsed([u, v], n))
    ensures HrefAt(t) == Some(Hit(n, MarkdownLink(v, u)))
  {
  }

  lemma HrefAtArgs(t: string, tail: string, u: string, v: string, n: nat)
    requires t == "\\href" + tail && ArgsRead(tail, 2, Parsed([u, v], n))
    ensures HrefAt(t) == Some(Hit(n + 5, MarkdownLink(v, u)))
  {
    CommandArgsOf("\\href", tail, 2, Parsed([u, v], n));
    HrefAtOf("\\href" + tail, u, v, n + 5);
  }

  /** The match of `\href{U}{T}`: replaced by the link `[T](U)`. */
  lemma {:induction false} HrefMatch(u: string, v: string, b: string)
    requires '}' !in u && '}' !in v
    ensures HrefAt(("\\href{" + u + "}{" + v + "}") + b) == Some(Hit(|"\\href{" + u + "}{" + v + "}"|, MarkdownLink(v, u)))
  {
    HrefSplit(u, v, b);
    HrefAtTail(u, v, b);
  }

  lemma {:induction false} HrefAtTail(u: string, v: string, b: string)
    requires '}' !in u && '}' !in v
    ensures HrefAt("\\href" + ("{" + u + "}{" + v + "}" + b)) == Some(Hit(|"{" + u + "}{" + v + "}"| + 5, MarkdownLink(v, u)))
  {
    TwoArgs(u, v, b);
    HrefAtArgs("\\href" + ("{" + u + "}{" + v + "}" + b), "{" + u + "}{" + v + "}" + b, u, v, |"{" + u + "}{" + v + "}"|);
  }

  /** `\href{U}{T}` becomes the markdown link `[T](U)`. */
  lemma {:induction false} HrefRewritten(a: string, u: string, v: string, b: string)
    requires '\\' !in a && '}' !in u && '}' !in v
    ensures Rewrite(Href, a + ("\\href{" + u + "}{" + v + "}") + b) == a + MarkdownLink(v, u) + Rewrite(Href, b)
  {
    HrefMatch(u, v, b);
    RewriteAt(Href, a, "\\href{" + u + "}{" + v + "}", b, Hit(|"\\href{" + u + "}{" + v + "}"|, MarkdownLink(v, u)));
  }

  lemma {:induction false} RoleSplit(c: string, title: string, d: string, b: string)
    ensures ("\\role{" + c + "}{" + title + "}{" + d + "}") + b == "\\role" + ("{" + c + "}{" + title + "}{" + d + "}" + b)
    ensures |"\\role{" + c + "}{" + title + "}{" + d + "}"| == |"{" + c + "}{" + title + "}{" + d + "}"| + 5
  {
    assert ("\\role{" + c + "}{" + title + "}{" + d + "}") + b == "\\role" + ("{" + c + "}{" + title + "}{" + d + "}" + b);
  }

  lemma RoleAtOf(t: string, c: string, title: string, d: string, n: nat)
    requires CommandArgs("\\role", 3, t) == Some(Parsed([c, title, d], n))
    ensures RoleAt(t) == Some(Hit(n, Heading(c, title, d)))
  {
  }

  lemma RoleAtArgs(t: string, tail: string, c: string, title: string, d: string, n: nat)
    requires t == "\\role" + tail && ArgsRead(tail, 3, Parsed([c, title, d], n))
    ensures RoleAt(t) == Some(Hit(n + 5, Heading(c, title, d)))
  {
    CommandArgsOf("\\role", tail, 3, Parsed([c, title, d], n));
    RoleAtOf("\\role" + tail, c, title, d, n + 5);
  }

  /** The match of `\role{C}{T}{D}`: replaced by its heading block. */
  lemma {:induction false} RoleMatch(c: string, title: string, d: string, b: string)
    requires '}' !in c && '}' !in title && '}' !in d
    ensures RoleAt(("\\role{" + c + "}{" + title + "}{" + d + "}") + b) == Some(Hit(|"\\role{" + c + "}{" + title + "}{" + d + "}"|, Heading(c, title, d)))
  {
    RoleSplit(c, title, d, b);
    RoleAtTail(c, title, d, b);
  }

  lemma {:induction false} RoleAtTail(c: string, title: string, d: string, b: string)
    requires '}' !in c && '}' !in title && '}' !in d
    ensures RoleAt("\\role" + ("{" + c + "}{" + title + "}{" + d + "}" + b)) == Some(Hit(|"{" + c + "}{" + title + "}{" + d + "}"| + 5, Heading(c, title, d)))
  {
    ThreeArgs(c, title, d, b);
    RoleAtArgs("\\role" + ("{" + c + "}{" + title + "}{" + d + "}" + b), "{" + c + "}{" + title + "}{" + d + "}" + b, c, title, d, |"{" + c + "}{" + title + "}{" + d + "}"|);
  }

  /** `\role{C}{T}{D}` becomes the heading `### C — *T*` with `**D**` on the next line. */
  lemma {:induction false} RoleRewritten(a: string, c: string, title: string, d: string, b: string)
    requires '\\' !in a && '}' !in c && '}' !in title && '}' !in d
    ensures Rewrite(Role, a + ("\\role{" + c + "}{" + title + "}{" + d + "}") + b) == a + Heading(c, title, d) + Rewrite(Role, b)
  {
    RoleMatch(c, title, d, b);
    RewriteAt(Role, a, "\\role{" + c + "}{" + title + "}{" + d + "}", b, Hit(|"\\role{" + c + "}{" + title + "}{" + d + "}"|, Heading(c, title, d)));
  }

  lemma {:induction false} EduSplit(u: string, p: string, d: string, b: string)
    ensures ("\\edu{" + u + "}{" + p + "}{" + d + "}") + b == "\\edu" + ("{" + u + "}{" + p + "}{" + d + "}" + b)
    ensures |"\\edu{" + u + "}{" + p + "}{" + d + "}"| == |"{" + u + "}{" + p + "}{" + d + "}"| + 4
  {
    assert ("\\edu{" + u + "}{" + p + "}{" + d + "}") + b == "\\edu" + ("{" + u + "}{" + p + "}{" + d + "}" + b);
  }

  lemma EduAtOf(t: string, u: string, p: string, d: string, n: nat)
    requires CommandArgs("\\edu", 3, t) == Some(Parsed([u, p, d], n))
    ensures EduAt(t) == Some(Hit(n, Heading(u, p, d)))
  {
  }

  lemma EduAtArgs(t: string, tail: string, u: string, p: string, d: string, n: nat)
    requires t == "\\edu" + tail && ArgsRead(tail, 3, Parsed([u, p, d], n))
    ensures EduAt(t) == Some(Hit(n + 4, Heading(u, p, d)))
  {
    CommandArgsOf("\\edu", tail, 3, Parsed([u, p, d], n));
    EduAtOf("\\edu" + tail, u, p, d, n + 4);
  }

  /** The match of `\edu{U}{P}{D}`: replaced by its heading block. */
  lemma {:induction false} EduMatch(u: string, p: string, d: string, b: string)
    requires '}' !in u && '}' !in p && '}' !in d
    ensures EduAt(("\\edu{" + u + "}{" + p + "}{" + d + "}") + b) == Some(Hit(|"\\edu{" + u + "}{" + p + "}{" + d + "}"|, Heading(u, p, d)))
  {
    EduSplit(u, p, d, b);
    EduAtTail(u, p, d, b);
  }

  lemma {:induction false} EduAtTail(u: string, p: string, d: string, b: string)
    requires '}' !in u && '}' !in p && '}' !in d
    ensures EduAt("\\edu" + ("{" + u + "}{" + p + "}{" + d + "}" + b)) == Some(Hit(|"{" + u + "}{" + p + "}{" + d + "}"| + 4, Heading(u, p, d)))
  {
    ThreeArgs(u, p, d, b);
    EduAtArgs("\\edu" + ("{" + u + "}{" + p + "}{" + d + "}" + b), "{" + u + "}{" + p + "}{" + d + "}" + b, u, p, d, |"{" + u + "}{" + p + "}{" + d + "}"|);
  }

  /** `\edu{U}{P}{D}` becomes the heading `### U — *P*` with `**D**` on the next line. */
  lemma {:induction false} EduRewritten(a: string, u: string, p: string, d: string, b: string)
    requires '\\' !in a && '}' !in u && '}' !in p && '}' !in d
    ensures Rewrite(Edu, a + ("\\edu{" + u + "}{" + p + "}{" + d + "}") + b) == a + Heading(u, p, d) + Rewrite(Edu, b)
  {
    EduMatch(u, p, d, b);
    RewriteAt(Edu, a, "\\edu{" + u + "}{" + p + "}{" + d + "}", b, Hit(|"\\edu{" + u + "}{" + p + "}{" + d + "}"|, Heading(u, p, d)));
  }

  /** The link text `[T](U)` has no `}` when its parts have none. */
  lemma LinkHasNoClose(v: string, u: string)
    requires '}' !in u && '}' !in v
    ensures '}' !in MarkdownLink(v, u)
  {
  }

  /** `\mbox` is not the start of a link. */
  lemma HrefMissesMbox(t: string)
    requires "\\mbox" <= t
    ensures HrefAt(t).None?
  {
    assert t[1] == 'm';
  }

  lemma MboxHrefSplit(a: string, u: string, v: string, b: string)
    ensures a + ("\\mbox{\\href{" + u + "}{" + v + "}}") + b
      == a + ("\\mbox{" + ("\\href{" + u + "}{" + v + "}") + ("}" + b))
    ensures ("\\mbox{" + ("\\href{" + u + "}{" + v + "}") + ("}" + b))[1..]
      == "mbox{" + ("\\href{" + u + "}{" + v + "}") + ("}" + b)
  {
    assert a + ("\\mbox{\\href{" + u + "}{" + v + "}}") + b
      == a + ("\\mbox{" + ("\\href{" + u + "}{" + v + "}") + ("}" + b));
  }

  lemma MboxRejoin(a: string, link: string, rest: string)
    ensures a + ['\\'] + ("mbox{" + link + ("}" + rest)) == a + ("\\mbox{" + link + "}") + rest
  {
  }

  /** Inside `\mbox{...}`, the link rule rewrites the link and keeps the `\mbox` around it. */
  lemma {:induction false} HrefInsideMbox(a: string, u: string, v: string, b: string)
    requires '\\' !in a && '}' !in u && '}' !in v
    ensures Rewrite(Href, a + ("\\mbox{\\href{" + u + "}{" + v + "}}") + b)
      == a + ("\\mbox{" + MarkdownLink(v, u) + "}") + Rewrite(Href, b)
  {
    var src := "\\href{" + u + "}{" + v + "}";
    var t := "\\mbox{" + src + ("}" + b);
    MboxHrefSplit(a, u, v, b);
    HrefMissesMbox(t);
    RewriteMiss(Href, a, t);
    HrefRewritten("mbox{", u, v, "}" + b);
    RewriteSkip(Href, "}", b);
    MboxRejoin(a, MarkdownLink(v, u), Rewrite(Href, b));
  }

  /**
   * Links are rewritten before `\mbox` is unwrapped, so a link wrapped in
   * `\mbox` comes out as a bare markdown link.
   */
  lemma {:induction false} MboxAroundHref(a: string, u: string, v: string, b: string)
    requires '\\' !in a && '}' !in u && '}' !in v
    ensures Rewrite(Mbox, Rewrite(Href, a + ("\\mbox{\\href{" + u + "}{" + v + "}}") + b))
      == a + MarkdownLink(v, u) + Rewrite(Mbox, Rewrite(Href, b))
  {
    HrefInsideMbox(a, u, v, b);
    LinkHasNoClose(v, u);
    MboxRewritten(a, MarkdownLink(v, u), Rewrite(Href, b));
  }

  /** A fixed string that begins with a backslash is replaced wherever it appears. */
  lemma {:induction false} LiteralRewritten(pat: string, rep: string, a: string, b: string)
    requires |pat| > 0 && pat[0] == '\\' && '\\' !in a
    ensures Rewrite(Literal(pat, rep), a + pat + b) == a + rep + Rewrite(Literal(pat, rep), b)
  {
    assert pat <= pat + b;
    RewriteAt(Literal(pat, rep), a, pat, b, Hit(|pat|, rep));
  }

  lemma {:induction false} MinipageShape(x: string, y: string, b: string)
    ensures var t := ("\\begin{minipage}" + x + "}" + y + "}") + b;
      && "\\begin{minipage}" <= t
      && 16 + |x| + 1 + |y| < |t|
      && t[16..16 + |x|] == x && t[16 + |x|] == '}'
      && t[16 + |x| + 1..16 + |x| + 1 + |y|] == y && t[16 + |x| + 1 + |y|] == '}'
      && |"\\begin{minipage}" + x + "}" + y + "}"| == 16 + |x| + 1 + |y| + 1
  {
    var t := ("\\begin{minipage}" + x + "}" + y + "}") + b;
    assert t[..16] == "\\begin{minipage}";
  }

  lemma MinipageAtOf(t: string, j1: nat, j2: nat)
    requires "\\begin{minipage}" <= t && j1 + 1 <= |t|
    requires ClosesAt(t, 16, j1) && ClosesAt(t, j1 + 1, j2)
    ensures MinipageAt(t) == Some(Hit(j2 + 1, ""))
  {
  }

  /** The match of `\begin{minipage}`: through the second `}` after it, replaced by nothing. */
  lemma {:induction false} MinipageMatch(x: string, y: string, b: string)
    requires '}' !in x && '}' !in y
    ensures MinipageAt(("\\begin{minipage}" + x + "}" + y + "}") + b)
      == Some(Hit(|"\\begin{minipage}" + x + "}" + y + "}"|, ""))
  {
    var t := ("\\begin{minipage}" + x + "}" + y + "}") + b;
    MinipageShape(x, y, b);
    FindClose(t, 16, x);
    FindClose(t, 16 + |x| + 1, y);
    MinipageAtOf(t, 16 + |x|, 16 + |x| + 1 + |y|);
  }

  /**
   * `\begin{minipage}` is deleted together with everything up to and
   * including the second `}` after it.
   */
  lemma {:induction false} MinipageRewritten(a: string, x: string, y: string, b: string)
    requires '\\' !in a && '}' !in x && '}' !in y
    ensures Rewrite(Minipage, a + ("\\begin{minipage}" + x + "}" + y + "}") + b)
      == a + Rewrite(Minipage, b)
  {
    MinipageMatch(x, y, b);
    RewriteAt(Minipage, a, "\\begin{minipage}" + x + "}" + y + "}", b,
      Hit(|"\\begin{minipage}" + x + "}" + y + "}"|, ""));
    assert a + "" == a;
  }

  /**
   * On the layout `\begin{minipage}{WIDTH}CONTENT}`, the width argument
   * closes the first `}`, so the content up to the next `}` goes too.
   */
  lemma {:induction false} MinipageDropsContent(a: string, w: string, c: string, b: string)
    requires '\\' !in a && '}' !in w && '}' !in c
    ensures Rewrite(Minipage, a + ("\\begin{minipage}{" + w + "}" + c + "}") + b)
      == a + Rewrite(Minipage, b)
  {
    assert "\\begin{minipage}{" + w + "}" + c + "}" == "\\begin{minipage}" + ("{" + w) + "}" + c + "}";
    assert '}' !in "{" + w;
    MinipageRewritten(a, "{" + w, c, b);
  }

  /** A run of characters of one class is read up to the first character outside it. */
  lemma {:induction false} RunOf(name: string, rest: string, k: CharClass)
    requires forall i :: 0 <= i < |name| ==> k.Has(name[i])
    requires rest != [] && !k.Has(rest[0])
    ensures Run(name + rest, k) == |name|
  {
    var t := name + rest;
    assert !k.Has(t[|name|]);
    assert forall i :: 0 <= i < |name| ==> k.Has(t[i]);
  }

  lemma {:induction false} PillShape(name: string, x: string, b: string)
    ensures var t := ("\\pill" + name + "{" + x + "}") + b;
      && "\\pill" <= t
      && t[5..] == name + ("{" + x + "}" + b)
      && t[5 + |name|..] == "{" + x + "}" + b
      && |"\\pill" + name + "{" + x + "}"| == 5 + |name| + |"{" + x + "}"|
  {
    var t := ("\\pill" + name + "{" + x + "}") + b;
    assert t[..5] == "\\pill";
    assert t[5..] == name + ("{" + x + "}" + b);
  }

  lemma PillAtOf(t: string, n: nat, x: string, m: nat)
    requires "\\pill" <= t && 0 < n && 5 + n <= |t| && Run(t[5..], Word) == n
    requires ArgsRead(t[5 + n..], 1, Parsed([x], m))
    ensures PillAt(t) == Some(Hit(5 + n + m, "`" + x + "`"))
  {
  }

  /** The match of `\pillNAME{T}`: replaced by the code span `` `T` ``. */
  lemma {:induction false} PillMatch(name: string, x: string, b: string)
    requires '}' !in x
    requires |name| > 0 && forall i :: 0 <= i < |name| ==> IsWordChar(name[i])
    ensures PillAt(("\\pill" + name + "{" + x + "}") + b)
      == Some(Hit(|"\\pill" + name + "{" + x + "}"|, "`" + x + "`"))
  {
    var t := ("\\pill" + name + "{" + x + "}") + b;
    PillShape(name, x, b);
    PillArgs(name, x, b);
    PillAtOf(t, |name|, x, |"{" + x + "}"|);
  }

  /** The name is a run of word characters, and the braced text after it is read whole. */
  lemma {:induction false} PillArgs(name: string, x: string, b: string)
    requires '}' !in x
    requires |name| > 0 && forall i :: 0 <= i < |name| ==> IsWordChar(name[i])
    ensures Run(name + ("{" + x + "}" + b), Word) == |name|
    ensures ArgsRead("{" + x + "}" + b, 1, Parsed([x], |"{" + x + "}"|))
  {
    RunOf(name, "{" + x + "}" + b, Word);
    OneArg(x, b);
  }

  /** `\pillNAME{T}`, for any name of word characters, becomes the code span `` `T` ``. */
  lemma {:induction false} PillRewritten(a: string, name: string, x: string, b: string)
    requires '\\' !in a && '}' !in x
    requires |name| > 0 && forall i :: 0 <= i < |name| ==> IsWordChar(name[i])
    ensures Rewrite(Pill, a + ("\\pill" + name + "{" + x + "}") + b)
      == a + ("`" + x + "`") + Rewrite(Pill, b)
  {
    PillMatch(name, x, b);
    RewriteAt(Pill, a, "\\pill" + name + "{" + x + "}", b,
      Hit(|"\\pill" + name + "{" + x + "}"|, "`" + x + "`"));
  }
}
