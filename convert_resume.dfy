/**
 * `convert_resume`: the rewrite steps in the order the converter applies
 * them, from front matter removal to the final strip.
 */
module ConvertResume {
  import opened Options
  import opened Text
  import opened Patterns
  import opened Substitute

  /** A line that is exactly `---` (with its newline) starts at index `p`. */
  predicate IsDelimiter(s: string, p: int) {
    LineStart(s, p) && OccursAt("---\n", s, p)
  }

  /** The first delimiter line at or after `from`. */
  function FindDelimiter(s: string, from: nat): (r: Option<nat>)
    requires from <= |s|
    ensures r.Some? ==> from <= r.value && IsDelimiter(s, r.value)
    ensures forall k :: from <= k && (r.Some? ==> k < r.value) ==> !IsDelimiter(s, k)
    decreases |s| - from
  {
    if IsDelimiter(s, from) then Some(from)
    else if from == |s| then None
    else FindDelimiter(s, from + 1)
  }

  /** `s` holds two delimiter lines. */
  ghost predicate HasFrontMatter(s: string) {
    exists p, q :: 0 <= p && p + 4 <= q && IsDelimiter(s, p) && IsDelimiter(s, q)
  }

  /** `p` and `q` are the first delimiter line of `s` and the next one after it. */
  predicate FirstFrontMatter(s: string, p: int, q: int) {
    && 0 <= p && p + 4 <= q
    && IsDelimiter(s, p) && IsDelimiter(s, q)
    && (forall k :: 0 <= k < p ==> !IsDelimiter(s, k))
    && (forall k :: p + 4 <= k < q ==> !IsDelimiter(s, k))
  }

  /**
   * `re.sub(r'^---\n.*?^---\n', '', s, count=1, flags=MULTILINE|DOTALL)`:
   * removes the first delimiter line, the next one and all between them;
   * with fewer than two delimiter lines nothing changes.
   */
  function StripFrontMatter(s: string): string {
    match FindDelimiter(s, 0)
    case None => s
    case Some(p) =>
      match FindDelimiter(s, p + 4)
      case None => s
      case Some(q) => s[..p] + s[q + 4..]
  }

  /** Text with fewer than two delimiter lines is left as it is. */
  lemma StripFrontMatterUnchanged(s: string)
    ensures !HasFrontMatter(s) ==> StripFrontMatter(s) == s
  {
    match FindDelimiter(s, 0)
    case None =>
    case Some(p) =>
      match FindDelimiter(s, p + 4)
      case None =>
      case Some(q) => assert 0 <= p && p + 4 <= q && IsDelimiter(s, p) && IsDelimiter(s, q);
  }

  /**
   * With front matter, exactly the region from the first delimiter line
   * through the next one is removed.
   */
  lemma StripFrontMatterRemoves(s: string, p: nat, q: nat)
    requires FirstFrontMatter(s, p, q)
    ensures StripFrontMatter(s) == s[..p] + s[q + 4..]
  {
    FindsDelimiter(s, 0, p);
    FindsDelimiter(s, p + 4, q);
  }

  /** The search finds the delimiter line at `k` when none comes between `from` and `k`. */
  lemma FindsDelimiter(s: string, from: nat, k: nat)
    requires from <= k <= |s| && IsDelimiter(s, k)
    requires forall j :: from <= j < k ==> !IsDelimiter(s, j)
    ensures FindDelimiter(s, from) == Some(k)
  {
  }

  /** `\vspace`, `\href`, `\mbox`, layout blocks, pills, roles, tech lines, education, lists. */
  function RewriteMacros(s: string): string {
    var noSpacing := Rewrite(VSpace, s);
    var linked := Rewrite(Href, noSpacing);
    var unboxed := Rewrite(Mbox, linked);
    var c1 := Rewrite(Literal("\\begin{center}", ""), unboxed);
    var c2 := Rewrite(Literal("\\end{center}", ""), c1);
    var c3 := Rewrite(Minipage, c2);
    var c4 := Rewrite(Literal("\\end{minipage}", ""), c3);
    var uncentered := Rewrite(Literal("\\centering", ""), c4);
    var pills := Rewrite(Pill, uncentered);
    var roles := Rewrite(Role, pills);
    var tech := Rewrite(Tech, roles);
    var edu := Rewrite(Edu, tech);
    Rewrite(Itemize, edu)
  }

  /** The three `str.replace` calls that clean up escaped characters, in order. */
  function Unescape(s: string): string {
    var amp := Rewrite(Literal("\\&", "&"), s);
    var hash := Rewrite(Literal("\\#", "#"), amp);
    Rewrite(Literal("C\\#", "C#"), hash)
  }

  /** Removes leftover commands: first those with one argument, then bare ones. */
  function SweepCommands(s: string): string {
    Rewrite(BareCommand, Rewrite(CommandWithArg, s))
  }

  /** Collapses runs of three or more newlines, then strips the ends. */
  function Tidy(s: string): string {
    Strip(Rewrite(NewlineRun, s))
  }

  /** `convert_resume(content)` */
  function Convert(content: string): string {
    var body := StripFrontMatter(content);
    var markdown := RewriteMacros(body);
    var dashed := Rewrite(PlusItem, markdown);
    Tidy(SweepCommands(Unescape(dashed)))
  }
}
