/**
 * The regular expressions of the resume converter, each as a matcher that
 * says whether the pattern matches at the head of a string, how many
 * characters the match consumes and what `re.sub` puts in its place.
 */
module Patterns {
  import opened Options
  import opened Text

  /** A brace argument's text and the number of characters it spans. */
  datatype Arg = Arg(text: string, len: nat)

  /** `\{([^}]*)\}` at the head of `t`: the argument runs to the first `}`. */
  function BraceArg(t: string): (r: Option<Arg>)
    ensures r.Some? <==> |t| > 0 && t[0] == '{' && '}' in t[1..]
    ensures r.Some? ==> r.value.len == |r.value.text| + 2 <= |t|
    ensures r.Some? ==> t[..r.value.len] == "{" + r.value.text + "}" && '}' !in r.value.text
  {
    if "{" <= t then
      match Find("}", t, 1)
      case Some(j) =>
        assert t[j..][0] == '}';
        assert forall k :: 1 <= k < j ==> t[k] != '}' by {
          forall k | 1 <= k < j ensures t[k] != '}' {
            assert !OccursAt("}", t, k);
            assert t[k..][..1] == [t[k]];
          }
        }
        Some(Arg(t[1..j], j + 1))
      case None =>
        assert forall k :: 1 <= k < |t| ==> t[k] != '}' by {
          forall k | 1 <= k < |t| ensures t[k] != '}' {
            assert !OccursAt("}", t, k);
            assert t[k..][..1] == [t[k]];
          }
        }
        None
    else None
  }

  /** The texts of `n` brace arguments in a row and the length they span. */
  datatype Parsed = Parsed(args: seq<string>, len: nat)

  /** `n` consecutive `\{([^}]*)\}` groups at the head of `t`. */
  function Args(t: string, n: nat): (r: Option<Parsed>)
    ensures r.Some? ==> |r.value.args| == n && r.value.len <= |t|
  {
    if n == 0 then Some(Parsed([], 0))
    else match BraceArg(t)
      case None => None
      case Some(a) =>
        match Args(t[a.len..], n - 1)
        case None => None
        case Some(rest) => Some(Parsed([a.text] + rest.args, a.len + rest.len))
  }

  /** `\name` followed by `n` brace arguments at the head of `t`. */
  function CommandArgs(head: string, n: nat, t: string): (r: Option<Parsed>)
    ensures r.Some? ==> |r.value.args| == n && |head| <= r.value.len <= |t|
  {
    if head <= t then
      match Args(t[|head|..], n)
      case None => None
      case Some(p) => Some(Parsed(p.args, |head| + p.len))
    else None
  }

  const EmDash: char := '\U{2014}'

  /** `[TEXT](URL)` */
  function MarkdownLink(text: string, url: string): string {
    "[" + text + "](" + url + ")"
  }

  /** The block `convert_role` and `convert_edu` both produce. */
  function Heading(name: string, subtitle: string, dates: string): string {
    "### " + name + " " + [EmDash] + " *" + subtitle + "*\n**" + dates + "**\n"
  }

  /**
   * The lookahead `(?=\\item|$)` at index `k` of an item block; without
   * MULTILINE, `$` holds at the end and just before a final newline.
   */
  predicate ItemEnd(t: string, k: nat) {
    OccursAt("\\item", t, k) || k == |t| || (k + 1 == |t| && t[k] == '\n')
  }

  /** The first index at or after `from` where the lookahead holds: where `.+?` stops. */
  function NextItemEnd(t: string, from: nat): (k: nat)
    requires from <= |t|
    ensures from <= k <= |t| && ItemEnd(t, k)
    ensures forall j :: from <= j < k ==> !ItemEnd(t, j)
    decreases |t| - from
  {
    if ItemEnd(t, from) then from else NextItemEnd(t, from + 1)
  }

  /**
   * `\\item\s*(.+?)(?=\\item|$)` at the head of `t`: the captured text and
   * the length of the match. When only whitespace follows `\item`, the
   * greedy `\s*` gives back its last character so that `.+?` can take it.
   */
  function ItemAt(t: string): (r: Option<Arg>)
    ensures r.Some? ==> 0 < r.value.len <= |t|
  {
    if "\\item" <= t then
      var w := 5 + Run(t[5..], Space);
      if w < |t| then
        var k := NextItemEnd(t, w + 1);
        Some(Arg(t[w..k], k))
      else if w > 5 then Some(Arg(t[w - 1..w], w))
      else None
    else None
  }

  /** `re.findall` of the item pattern over an item block, left to right. */
  function Items(t: string): seq<string>
    decreases |t|
  {
    if t == [] then []
    else match ItemAt(t)
      case Some(m) => [m.text] + Items(t[m.len..])
      case None => Items(t[1..])
  }

  /** `'\n'.join(lines)` */
  function JoinLines(lines: seq<string>): string {
    if |lines| == 0 then ""
    else if |lines| == 1 then lines[0]
    else lines[0] + "\n" + JoinLines(lines[1..])
  }

  /** What `convert_itemize` returns for the captured items. */
  function BulletList(items: seq<string>): string {
    JoinLines(seq(|items|, i requires 0 <= i < |items| => "- " + Strip(items[i]))) + "\n"
  }

  /** The patterns `re.sub` and `str.replace` apply, one per call in the converter. */
  datatype Rule =
    | VSpace                            // \\vspace\{[^}]*\}
    | Href                              // \\href\{([^}]*)\}\{([^}]*)\}
    | Mbox                              // \\mbox\{([^}]*)\}
    | Literal(pat: string, rep: string) // a fixed string, by re.sub or str.replace
    | Minipage                          // \\begin\{minipage\}[^}]*\}[^}]*\}
    | Pill                              // \\pill\w+\{([^}]*)\}
    | Role                              // \\role\{([^}]*)\}\{([^}]*)\}\{([^}]*)\}
    | Tech                              // \\tech\{([^}]*)\}
    | Edu                               // \\edu\{([^}]*)\}\{([^}]*)\}\{([^}]*)\}
    | Itemize                           // \\begin\{itemize\}(.*?)\\end\{itemize\} with DOTALL
    | PlusItem                          // ^\+  with MULTILINE
    | CommandWithArg                    // \\[a-zA-Z]+\{[^}]*\}
    | BareCommand                       // \\[a-zA-Z]+
    | NewlineRun                        // \n{3,}

  /** A match: how many characters it consumes and what replaces them. */
  datatype Hit = Hit(len: nat, rep: string)

  /** The rules whose every match begins with a backslash. */
  predicate Escaped(rule: Rule) {
    match rule
    case PlusItem => false
    case NewlineRun => false
    case Literal(pat, _) => |pat| > 0 && pat[0] == '\\'
    case _ => true
  }

  /**
   * The match of `rule` at the head of `t`, if any; `bol` says whether the
   * head of `t` is the start of a line, which only `^` looks at.
   */
  function Match(rule: Rule, t: string, bol: bool): (r: Option<Hit>)
    ensures r.Some? ==> 0 < r.value.len <= |t|
    ensures r.Some? && Escaped(rule) ==> t[0] == '\\'
    ensures r.Some? && rule.Literal? ==> rule.pat <= t
  {
    match rule
    case VSpace => VSpaceAt(t)
    case Href => HrefAt(t)
    case Mbox => MboxAt(t)
    case Literal(pat, rep) => LiteralAt(pat, rep, t)
    case Minipage => MinipageAt(t)
    case Pill => PillAt(t)
    case Role => RoleAt(t)
    case Tech => TechAt(t)
    case Edu => EduAt(t)
    case Itemize => ItemizeAt(t)
    case PlusItem => PlusItemAt(t, bol)
    case CommandWithArg => CommandWithArgAt(t)
    case BareCommand => BareCommandAt(t)
    case NewlineRun => NewlineRunAt(t)
  }

  /** A match that begins with a backslash and fits in `t`. */
  predicate EscapedHit(r: Option<Hit>, t: string) {
    r.Some? ==> 0 < r.value.len <= |t| && t[0] == '\\'
  }

  /** `re.sub(r'\\vspace\{[^}]*\}', '', ...)` */
  function VSpaceAt(t: string): (r: Option<Hit>)
    ensures EscapedHit(r, t)
  {
    match CommandArgs("\\vspace", 1, t)
    case Some(p) => Some(Hit(p.len, ""))
    case None => None
  }

  /** `re.sub(r'\\href\{([^}]*)\}\{([^}]*)\}', r'[\2](\1)', ...)` */
  function HrefAt(t: string): (r: Option<Hit>)
    ensures EscapedHit(r, t)
  {
    match CommandArgs("\\href", 2, t)
    case Some(p) => Some(Hit(p.len, MarkdownLink(p.args[1], p.args[0])))
    case None => None
  }

  /** `re.sub(r'\\mbox\{([^}]*)\}', r'\1', ...)` */
  function MboxAt(t: string): (r: Option<Hit>)
    ensures EscapedHit(r, t)
  {
    match CommandArgs("\\mbox", 1, t)
    case Some(p) => Some(Hit(p.len, p.args[0]))
    case None => None
  }

  /** A fixed, non-empty string `pat` replaced by `rep`. */
  function LiteralAt(pat: string, rep: string, t: string): (r: Option<Hit>)
    ensures r.Some? ==> 0 < |pat| == r.value.len <= |t| && pat <= t && t[0] == pat[0]
  {
    if |pat| > 0 && pat <= t then Some(Hit(|pat|, rep)) else None
  }

  /** `re.sub(r'\\begin\{minipage\}[^}]*\}[^}]*\}', '', ...)` */
  function MinipageAt(t: string): (r: Option<Hit>)
    ensures EscapedHit(r, t)
  {
    if "\\begin{minipage}" <= t then
      match Find("}", t, 16)
      case None => None
      case Some(j1) =>
        (match Find("}", t, j1 + 1)
         case None => None
         case Some(j2) => Some(Hit(j2 + 1, "")))
    else None
  }

  /** `re.sub(r'\\pill\w+\{([^}]*)\}', r'`\1`', ...)` */
  function PillAt(t: string): (r: Option<Hit>)
    ensures EscapedHit(r, t)
  {
    if "\\pill" <= t then
      var n := Run(t[5..], Word);
      if n == 0 then None
      else
        match Args(t[5 + n..], 1)
        case Some(p) => Some(Hit(5 + n + p.len, "`" + p.args[0] + "`"))
        case None => None
    else None
  }

  /** `convert_role` applied to `\\role\{([^}]*)\}\{([^}]*)\}\{([^}]*)\}` */
  function RoleAt(t: string): (r: Option<Hit>)
    ensures EscapedHit(r, t)
  {
    match CommandArgs("\\role", 3, t)
    case Some(p) => Some(Hit(p.len, Heading(p.args[0], p.args[1], p.args[2])))
    case None => None
  }

  /** `re.sub(r'\\tech\{([^}]*)\}', r'*\1*', ...)` */
  function TechAt(t: string): (r: Option<Hit>)
    ensures EscapedHit(r, t)
  {
    match CommandArgs("\\tech", 1, t)
    case Some(p) => Some(Hit(p.len, "*" + p.args[0] + "*"))
    case None => None
  }

  /** `convert_edu` applied to `\\edu\{([^}]*)\}\{([^}]*)\}\{([^}]*)\}` */
  function EduAt(t: string): (r: Option<Hit>)
    ensures EscapedHit(r, t)
  {
    match CommandArgs("\\edu", 3, t)
    case Some(p) => Some(Hit(p.len, Heading(p.args[0], p.args[1], p.args[2])))
    case None => None
  }

  /**
   * `convert_itemize` applied to `\\begin\{itemize\}(.*?)\\end\{itemize\}`
   * with DOTALL: the block runs to the first `\end{itemize}`.
   */
  function ItemizeAt(t: string): (r: Option<Hit>)
    ensures EscapedHit(r, t)
  {
    if "\\begin{itemize}" <= t then
      match Find("\\end{itemize}", t, 15)
      case Some(j) => Some(Hit(j + 13, BulletList(Items(t[15..j]))))
      case None => None
    else None
  }

  /** `re.sub(r'^\+ ', '- ', ..., flags=re.MULTILINE)` */
  function PlusItemAt(t: string, bol: bool): (r: Option<Hit>)
    ensures r.Some? ==> 0 < r.value.len <= |t|
  {
    if bol && "+ " <= t then Some(Hit(2, "- ")) else None
  }

  /** `re.sub(r'\\[a-zA-Z]+\{[^}]*\}', '', ...)` */
  function CommandWithArgAt(t: string): (r: Option<Hit>)
    ensures EscapedHit(r, t)
  {
    if "\\" <= t then
      var n := Run(t[1..], Letter);
      if n == 0 then None
      else
        match Args(t[1 + n..], 1)
        case Some(p) => Some(Hit(1 + n + p.len, ""))
        case None => None
    else None
  }

  /** `re.sub(r'\\[a-zA-Z]+', '', ...)` */
  function BareCommandAt(t: string): (r: Option<Hit>)
    ensures EscapedHit(r, t)
  {
    if "\\" <= t then
      var n := Run(t[1..], Letter);
      if n == 0 then None else Some(Hit(1 + n, ""))
    else None
  }

  /** `re.sub(r'\n{3,}', '\n\n', ...)` */
  function NewlineRunAt(t: string): (r: Option<Hit>)
    ensures r.Some? ==> 0 < r.value.len <= |t|
  {
    var n := Run(t, Newline);
    if n >= 3 then Some(Hit(n, "\n\n")) else None
  }
}
