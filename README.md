# convert_resume in Dafny

A model of `convert_resume` (scripts/convert_resume.py), the converter that turns a
LaTeX-flavoured resume written in Markdown into plain Markdown for a Jekyll site. It also
models the converter's inner callbacks `convert_role`, `convert_edu` and `convert_itemize`.
The converter is a fixed pipeline of regular-expression substitutions and string
replacements:

1. front matter removal;
2. `\vspace`, `\href`, `\mbox`, centering and minipage blocks, skill pills, `\role`,
   `\tech`, `\edu` and `itemize` lists;
3. `+ ` list markers;
4. escaped `&` and `#`;
5. a sweep of leftover commands;
6. collapsing blank lines;
7. `strip()`.

The model is pure, like the source.

- `Text`: the character classes behind `\s`, `\w`, `[a-zA-Z]` and `\n`. It also has the
  longest run of one class, literal search, and Python's `lstrip`, `rstrip` and `strip`.
- `Patterns`: one datatype value (`Rule`) per pattern that a `re.sub` or `str.replace` call
  of the converter applies. `Match` gives what that pattern matches at the head of a string
  and what replaces the match. The module also has the `\{([^}]*)\}` argument groups, the
  item pattern `\\item\s*(.+?)(?=\\item|$)` that `findall` applies inside a list (`ItemAt`,
  `Items`), and the headings `convert_role` and `convert_edu` build. The front-matter pattern
  is not a `Rule`: `ConvertResume` models that `count=1` search on its own.
- `Substitute`: `re.sub` (and `str.replace`) as a left-to-right scan. The scan replaces the
  leftmost match, resumes after it, and copies one character where nothing matches. A flag
  tracks line starts for the MULTILINE `^`.
- `ConvertResume`: the front-matter step, the steps in the converter's order, and `Convert`.
- `StepProperties`, `ItemizeProperties`, `CleanupProperties` and `ConvertProperties`: what
  each step does to the text it is meant for, and what the whole conversion guarantees.

## Model

| member | source | states |
|---|---|---|
| Text.Strip | scripts/convert_resume.py:99 | `strip()` here and on each item at line 74: the result is the input with only whitespace removed before and after it, and neither of its ends is whitespace |
| Text.TrimStart | scripts/convert_resume.py:73 | the greedy `\s*` before an item and the first half of `strip()`: the result is a suffix of the input, everything removed is whitespace, and the result does not start with whitespace |
| Text.Run | scripts/convert_resume.py:39 | a greedy `k*` stops at the first character outside the class, and every character before it is in the class |
| Text.Find | scripts/convert_resume.py:33 | the search returns the first occurrence at or after its start, and the pattern occurs nowhere before it |
| Patterns.BraceArg | scripts/convert_resume.py:22 | `\{([^}]*)\}` matches if and only if the text starts with `{` and a `}` follows; the captured argument is the `}`-free text up to the first `}` |
| Patterns.Args | scripts/convert_resume.py:25 | `n` argument groups in a row: exactly `n` captures, within the text; specified further by StepProperties.OneArg, TwoArgs and ThreeArgs |
| Patterns.CommandArgs | scripts/convert_resume.py:49 | a command name then `n` groups: `n` captures and a match that covers at least the name |
| Patterns.Heading | scripts/convert_resume.py:46-62 | no ensures; the f-string of `convert_role` and `convert_edu`; specified by StepProperties.RoleRewritten and EduRewritten |
| Patterns.NextItemEnd | scripts/convert_resume.py:73 | the lazy `.+?` stops at the first index where the lookahead `\\item` or `$` holds, and the lookahead fails at every index before it |
| Patterns.ItemAt | scripts/convert_resume.py:73 | a match of the item pattern consumes at least one character and no more than the text; specified by ItemizeProperties.ItemCapture, InnerItemScan and FinalItemScan |
| Patterns.Items | scripts/convert_resume.py:73 | no ensures; `re.findall` of the item pattern, left to right; specified by ItemizeProperties.ItemizeItems |
| Patterns.JoinLines | scripts/convert_resume.py:74 | no ensures; `'\n'.join`; specified through BulletList by ItemizeProperties.ItemizeRewritten and ItemizeExample |
| Patterns.BulletList | scripts/convert_resume.py:74 | no ensures; what `convert_itemize` returns for the captured items; specified by ItemizeProperties.ItemizeRewritten and ItemizeExample |
| Patterns.Match | scripts/convert_resume.py:22-96 | every match consumes at least one character; every match of a backslash pattern begins with a backslash; a literal matches only where it occurs |
| Patterns.VSpaceAt | scripts/convert_resume.py:22 | a match begins with a backslash and fits in the text; specified by StepProperties.VSpaceMatch |
| Patterns.HrefAt | scripts/convert_resume.py:25 | a match begins with a backslash and fits in the text; specified by StepProperties.HrefMatch |
| Patterns.MboxAt | scripts/convert_resume.py:28 | a match begins with a backslash and fits in the text; specified by StepProperties.MboxMatch |
| Patterns.LiteralAt | scripts/convert_resume.py:31-35 | a match is exactly the fixed string, where it occurs (also the replacements at lines 87-89); specified by StepProperties.LiteralRewritten |
| Patterns.MinipageAt | scripts/convert_resume.py:33 | a match begins with a backslash and fits in the text; specified by StepProperties.MinipageMatch |
| Patterns.PillAt | scripts/convert_resume.py:39 | a match begins with a backslash and fits in the text; specified by StepProperties.PillMatch |
| Patterns.RoleAt | scripts/convert_resume.py:42-52 | a match begins with a backslash and fits in the text; specified by StepProperties.RoleMatch |
| Patterns.TechAt | scripts/convert_resume.py:55 | a match begins with a backslash and fits in the text; specified by StepProperties.TechMatch |
| Patterns.EduAt | scripts/convert_resume.py:58-68 | a match begins with a backslash and fits in the text; specified by StepProperties.EduMatch |
| Patterns.ItemizeAt | scripts/convert_resume.py:71-81 | a match begins with a backslash and fits in the text; specified by ItemizeProperties.ItemizeMatch |
| Patterns.PlusItemAt | scripts/convert_resume.py:84 | a match fits in the text; specified by CleanupProperties.PlusItemDashed |
| Patterns.CommandWithArgAt | scripts/convert_resume.py:92 | a match begins with a backslash and fits in the text; specified by CleanupProperties.CommandWithArgMatch |
| Patterns.BareCommandAt | scripts/convert_resume.py:93 | a match begins with a backslash and fits in the text; specified by CleanupProperties.BareCommandRewritten |
| Patterns.NewlineRunAt | scripts/convert_resume.py:96 | a match fits in the text; specified by CleanupProperties.CollapseHit |
| Substitute.Sub | scripts/convert_resume.py:22-96 | no ensures; the leftmost, non-overlapping scan of `re.sub` and `str.replace`; specified by the lemmas of `Substitute` |
| Substitute.Rewrite | scripts/convert_resume.py:22-96 | no ensures; one `re.sub` or `str.replace` call over a whole string; specified by RewriteUnchanged, RewriteNoBackslash, RewriteSkip and RewriteAt |
| Substitute.RewriteUnchanged | scripts/convert_resume.py:22-96 | a substitution whose pattern matches nowhere in the text returns the text unchanged |
| Substitute.RewriteNoBackslash | scripts/convert_resume.py:22-93 | every pattern that starts with a backslash leaves text without a backslash unchanged |
| Substitute.RewriteSkip | scripts/convert_resume.py:22-93 | for a pattern that starts with a backslash, backslash-free text in front is kept and the scan goes on after it |
| Substitute.RewriteAt | scripts/convert_resume.py:22-93 | a construct the pattern matches in full, after backslash-free text, is replaced and the scan resumes right after it |
| ConvertResume.StripFrontMatter | scripts/convert_resume.py:13-19 | no ensures; specified by StripFrontMatterUnchanged and StripFrontMatterRemoves |
| ConvertResume.StripFrontMatterUnchanged | scripts/convert_resume.py:13-19 | text without two `---` lines is left unchanged |
| ConvertResume.StripFrontMatterRemoves | scripts/convert_resume.py:13-19 | with front matter, exactly the region from the first `---` line through the next one is removed, and the rest is kept |
| ConvertResume.FindDelimiter | scripts/convert_resume.py:14 | the search returns a line-start `---` line at or after its start point, and there is none before it |
| ConvertResume.FindsDelimiter | scripts/convert_resume.py:14 | the search for `^---\n` returns the first line-start `---` line at or after its start point |
| ConvertResume.RewriteMacros | scripts/convert_resume.py:21-81 | no ensures; the thirteen macro steps in source order; specified by the lemmas of `StepProperties` and `ItemizeProperties` and by ConvertProperties.MacrosUnchanged |
| ConvertResume.Unescape | scripts/convert_resume.py:86-89 | no ensures; the three replacements in order; specified by CleanupProperties.UnescapeCSharp, UnescapeDoubleBackslash and ConvertProperties.UnescapeUnchanged |
| ConvertResume.SweepCommands | scripts/convert_resume.py:91-93 | no ensures; the two sweeps in order; specified by CleanupProperties.SweepLeavesNoCommand, CommandWithArgRewritten and BareCommandRewritten |
| ConvertResume.Tidy | scripts/convert_resume.py:95-99 | no ensures; the collapse, then the strip; specified by CleanupProperties.CollapseRun, CollapseNoTriple, StripKeepsNoTriple and ConvertProperties.ConvertIsTidy |
| ConvertResume.Convert | scripts/convert_resume.py:8-101 | no ensures; the whole converter; specified by ConvertProperties.ConvertIsTidy, ConvertLeavesNoCommand and ConvertUnchanged |
| StepProperties.VSpaceRewritten | scripts/convert_resume.py:22 | `\vspace{x}` is deleted; the text before it is kept and the rest is rewritten in the same way |
| StepProperties.HrefRewritten | scripts/convert_resume.py:25 | `\href{url}{text}` becomes `[text](url)`; the text before it is kept and the rest is rewritten in the same way |
| StepProperties.MboxRewritten | scripts/convert_resume.py:28 | `\mbox{x}` becomes `x` |
| StepProperties.HrefInsideMbox | scripts/convert_resume.py:24-25 | a link inside `\mbox{...}` is converted by the `\href` step, and the `\mbox{` wrapper is left for the next step |
| StepProperties.MboxAroundHref | scripts/convert_resume.py:24-28 | because links are converted before `\mbox` is unwrapped, `\mbox{\href{url}{text}}` becomes `[text](url)` |
| StepProperties.LiteralRewritten | scripts/convert_resume.py:31-35 | a fixed command such as `\begin{center}`, `\end{center}`, `\end{minipage}` or `\centering`, after text without a backslash, is replaced (with nothing here, with `&` or `#` in the unescaping step), and the rest is scanned in the same way |
| StepProperties.MinipageRewritten | scripts/convert_resume.py:33 | `\begin{minipage}` through the second `}` after it is deleted, for every pair of `}`-free texts before those two braces |
| StepProperties.MinipageDropsContent | scripts/convert_resume.py:33 | on the layout `\begin{minipage}{width}`, the content after the width up to the next `}` is deleted along with the delimiter |
| StepProperties.PillRewritten | scripts/convert_resume.py:39 | `\pill<name>{x}` with a non-empty word name becomes `` `x` `` |
| StepProperties.RoleRewritten | scripts/convert_resume.py:42-52 | `\role{company}{title}{dates}` becomes the heading `### company — *title*` with `**dates**` on the next line |
| StepProperties.TechRewritten | scripts/convert_resume.py:55 | `\tech{x}` becomes `*x*` |
| StepProperties.EduRewritten | scripts/convert_resume.py:58-68 | `\edu{university}{department}{dates}` becomes the same heading shape as a role |
| ItemizeProperties.ItemizeItems | scripts/convert_resume.py:71-74 | `findall` over an item block recovers the items one by one (up to surrounding whitespace), and text before the first `\item` is dropped |
| ItemizeProperties.ItemizeRewritten | scripts/convert_resume.py:71-81 | an `itemize` block whose body holds no `\end{itemize}` becomes one `- item` line per item, each item stripped, ending in a newline; the text around the block is kept or rewritten in the same way |
| ItemizeProperties.ItemizeExample | scripts/convert_resume.py:71-81 | `\begin{itemize}\n\item A\n\item B\n\end{itemize}` becomes `- A\n- B\n` |
| CleanupProperties.PlusItemDashed | scripts/convert_resume.py:84 | the `+ ` step equals the reference definition: a `+` at a line start followed by a space becomes `-`, and every other character is kept |
| CleanupProperties.PlusItemUnchanged | scripts/convert_resume.py:84 | text with no line starting with `+ ` is unchanged |
| CleanupProperties.UnescapeCSharp | scripts/convert_resume.py:87-89 | `C\#` after text without a backslash comes out as `C#`, whatever follows: `\&` passes over it, `\#` is replaced first, and `C\#` then finds nothing left of it; the rest is unescaped in the same way |
| CleanupProperties.CSharpRewritten | scripts/convert_resume.py:89 | `C\#` after text without a backslash is replaced by `C#`, and the rest is scanned in the same way |
| CleanupProperties.UnescapeDoubleBackslash | scripts/convert_resume.py:88-89 | a case where the `C\#` replacement fires: `C\\#` (two backslashes) becomes `C\#` at line 88, which line 89 then turns into `C#` |
| CleanupProperties.CommandWithArgRewritten | scripts/convert_resume.py:92 | `\name{x}` with a letter name is deleted; the text before it is kept and the rest is swept in the same way |
| CleanupProperties.BareCommandRewritten | scripts/convert_resume.py:93 | `\name` with a letter name, not followed by a letter, is deleted; the text before it is kept and the rest is swept in the same way |
| CleanupProperties.SweepLeavesNoCommand | scripts/convert_resume.py:92-93 | after the two sweeps, no backslash is followed by an ASCII letter |
| CleanupProperties.CollapseRun | scripts/convert_resume.py:96 | a run of three or more newlines becomes exactly two; the text before it is kept and the rest is collapsed in the same way |
| CleanupProperties.CollapseNoTriple | scripts/convert_resume.py:96 | after collapsing, no run of three newlines remains, and the leading newlines are the input's, capped at two |
| CleanupProperties.CollapseKeepsNoCommand | scripts/convert_resume.py:96 | collapsing newlines creates no command and keeps the first character |
| CleanupProperties.StripKeepsNoTriple | scripts/convert_resume.py:99 | `strip()` creates no run of three newlines |
| CleanupProperties.StripKeepsNoCommand | scripts/convert_resume.py:99 | `strip()` creates no command |
| ConvertProperties.ConvertIsTidy | scripts/convert_resume.py:8-101 | for every input, the output has no run of three or more newlines and no whitespace at either end |
| ConvertProperties.ConvertLeavesNoCommand | scripts/convert_resume.py:8-101 | for every input, the output has no backslash followed by an ASCII letter |
| ConvertProperties.ConvertUnchanged | scripts/convert_resume.py:8-101 | plain Markdown is returned unchanged: no backslash, no `---` line, no `+ ` item, no run of three newlines, and no whitespace at either end |
| ConvertProperties.MacrosUnchanged | scripts/convert_resume.py:21-81 | the thirteen macro steps leave text without a backslash unchanged |
| ConvertProperties.UnescapeUnchanged | scripts/convert_resume.py:86-89 | the three replacements leave text without a backslash unchanged |
| ConvertProperties.CollapseUnchanged | scripts/convert_resume.py:96 | text without a run of three newlines is not changed by the collapse |

## Left out

- `main()` (scripts/convert_resume.py:104-138) is not modelled. That covers reading and
  writing files, the command-line arguments, and the Jekyll header it prepends.
- `\w` in `\pill\w+` is modelled as ASCII letters, digits and underscore. Python's Unicode
  word characters are not modelled. `\s` and `strip()` use Python's full whitespace set.
- Front matter: the code matches `^---\n` in MULTILINE mode. It removes the first `---`
  line anywhere in the text through the next one, not only a block at the very start.
  The model follows the code.
- The step lemmas below are stated for a construct after text without a backslash, which
  rules out an earlier match of the same step in between. Arguments are `}`-free, as
  `[^}]*` requires of every match. Constructs after other text are still covered by
  `Match`, `Sub` and the whole-pipeline lemmas.
- StepProperties.VSpaceRewritten: stated for a construct after text without a backslash.
- StepProperties.HrefRewritten: stated for a construct after text without a backslash.
- StepProperties.MboxRewritten: stated for a construct after text without a backslash.
- StepProperties.PillRewritten: stated for a construct after text without a backslash.
- StepProperties.RoleRewritten: stated for a construct after text without a backslash.
- StepProperties.TechRewritten: stated for a construct after text without a backslash.
- StepProperties.EduRewritten: stated for a construct after text without a backslash.
- StepProperties.MinipageRewritten: stated for a construct after text without a backslash.
- StepProperties.MinipageDropsContent: stated for a construct after text without a backslash.
- StepProperties.LiteralRewritten: stated for a construct after text without a backslash.
- StepProperties.HrefInsideMbox: stated for a construct after text without a backslash.
- StepProperties.MboxAroundHref: stated for a construct after text without a backslash.
- CleanupProperties.CSharpRewritten: stated for a construct after text without a backslash.
- CleanupProperties.UnescapeCSharp: stated for a construct after text without a backslash.
- CleanupProperties.UnescapeDoubleBackslash: stated for `C\\#` with no backslash before or
  after it.
- CleanupProperties.CommandWithArgRewritten: stated for a construct after text without a backslash.
- CleanupProperties.BareCommandRewritten: stated for a construct after text without a backslash.
- CleanupProperties.CollapseRun: stated for a run after text without a newline, for the
  same reason.
- ItemizeProperties.ItemizeItems: each item must hold something besides whitespace. Items
  may hold any other text, escapes such as `C\#` included, except `\item`, which would
  start the next item. Blank items behave in two ways, and `ItemAt` models both. No lemma
  spells out what such a list becomes. For a blank last item, the greedy `\s*` gives back one
  character, so the capture is a single whitespace character and the line is `- `. For a
  blank item before another, `\s*` keeps all its whitespace, and the lazy `.+?` then takes in
  the next item: `\item   \item B` captures `\item B`.
- ItemizeProperties.ItemizeRewritten: the same condition on items as ItemizeItems. The text
  before the list must be backslash-free, as for the other steps.
- The minipage step (scripts/convert_resume.py:33) deletes `\begin{minipage}` through the
  second `}` after it, which is every match of the pattern (StepProperties.MinipageRewritten).
  On the usual layout `\begin{minipage}{width}` the first `}` closes the width, so the step
  also deletes the minipage's content up to its first `}`
  (StepProperties.MinipageDropsContent). The step is meant to remove only the layout
  delimiters and keep the content. The model follows the code. Which layout the second `}`
  was written for is not known, so the model states this as a consequence of the code and
  not as a correction.
