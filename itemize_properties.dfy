/**
 * `convert_itemize` on a whole `itemize` environment: every `\item` becomes
 * one `- ` line holding its stripped text, and whatever comes before the
 * first `\item` is dropped.
 */
module ItemizeProperties {
  import opened Options
  import opened Text
  import opened Patterns
  import opened Substitute
  import opened StepProperties

  /** The item block `\item x0\item x1…` holding the texts `xs`. */
  function ItemSource(xs: seq<string>): string {
    if xs == [] then "" else "\\item" + xs[0] + ItemSource(xs[1..])
  }

  /** `pat` occurs nowhere in `s`. */
  predicate Absent(pat: string, s: string) {
    forall k :: 0 <= k <= |s| ==> !OccursAt(pat, s, k)
  }

  /**
   * An item text: no `\item` in it (another one would start a new item)
   * and something besides whitespace.
   */
  predicate PlainItem(x: string) {
    Absent("\\item", x) && Strip(x) != []
  }

  /** `pat` begins with a backslash and holds no other. */
  predicate LeadingBackslash(pat: string) {
    |pat| > 0 && pat[0] == '\\' && forall i :: 1 <= i < |pat| ==> pat[i] != '\\'
  }

  lemma MarkersLead()
    ensures LeadingBackslash("\\item") && LeadingBackslash("\\end{itemize}")
  {
  }

  /**
   * A pattern led by its only backslash, absent from `x`, starts at no index
   * of `x` when what follows `x` is empty or starts with a backslash: it
   * cannot run across the boundary.
   */
  lemma {:induction false} NoStraddle(pat: string, x: string, y: string, k: nat)
    requires LeadingBackslash(pat) && Absent(pat, x) && (y == [] || y[0] == '\\')
    requires k < |x|
    ensures !OccursAt(pat, x + y, k)
  {
    var s := (x + y)[k..];
    if k + |pat| <= |x| {
      assert !OccursAt(pat, x, k);
      assert s[..|pat|] == x[k..][..|pat|];
    } else if y != [] {
      assert s[|x| - k] == y[0];
    }
  }

  /** Dropping the first character keeps a pattern absent. */
  lemma AbsentTail(pat: string, s: string)
    requires s != [] && Absent(pat, s)
    ensures Absent(pat, s[1..])
  {
    forall k | 0 <= k <= |s| - 1 ensures !OccursAt(pat, s[1..], k) {
      assert s[1..][k..] == s[k + 1..];
      assert !OccursAt(pat, s, k + 1);
    }
  }

  /** Two texts without the pattern, the second empty or led by a backslash. */
  lemma {:induction false} AbsentConcat(pat: string, x: string, y: string)
    requires LeadingBackslash(pat) && Absent(pat, x) && Absent(pat, y)
    requires y == [] || y[0] == '\\'
    ensures Absent(pat, x + y)
  {
    forall k | 0 <= k <= |x + y| ensures !OccursAt(pat, x + y, k) {
      if k < |x| {
        NoStraddle(pat, x, y, k);
      } else {
        assert (x + y)[k..] == y[k - |x|..];
        assert !OccursAt(pat, y, k - |x|);
      }
    }
  }

  /** `\item` in front of text without `\end{itemize}` does not create one. */
  lemma {:induction false} EndAbsentAfterItem(z: string)
    requires Absent("\\end{itemize}", z)
    ensures Absent("\\end{itemize}", "\\item" + z)
  {
    var s := "\\item" + z;
    forall k | 0 <= k <= |s| ensures !OccursAt("\\end{itemize}", s, k) {
      if k == 0 {
        assert s[k..][1] == 'i';
      } else if k < 5 {
        assert s[k..][0] == s[k] != '\\';
      } else {
        assert s[k..] == z[k - 5..];
        assert !OccursAt("\\end{itemize}", z, k - 5);
      }
    }
  }

  /** The greedy `\s*` over `t` stops after `n` characters. */
  predicate SpaceRun(t: string, n: nat) {
    Run(t, Space) == n
  }

  /** The lazy `.+?` that starts before index `from` stops at index `k`. */
  predicate StopsAt(t: string, from: nat, k: nat)
    requires from <= |t|
  {
    NextItemEnd(t, from) == k
  }

  /** The first `\end{itemize}` after `\begin{itemize}` is at index `j`. */
  predicate EndsAt(t: string, j: nat)
    requires 15 <= |t|
  {
    Find("\\end{itemize}", t, 15) == Some(j)
  }

  lemma StopsAtFirst(t: string, from: nat, k: nat)
    requires from <= k <= |t| && ItemEnd(t, k)
    requires forall j :: from <= j < k ==> !ItemEnd(t, j)
    ensures StopsAt(t, from, k)
  {
  }

  lemma ItemAtOf(t: string, w: nat, k: nat)
    requires "\\item" <= t && 5 <= w < |t| && SpaceRun(t[5..], w - 5) && StopsAt(t, w + 1, k)
    ensures ItemAt(t) == Some(Arg(t[w..k], k))
  {
    assert 5 + Run(t[5..], Space) == w;
    assert NextItemEnd(t, w + 1) == k;
  }

  /** The leading whitespace of an item text is what `\s*` consumes. */
  lemma {:induction false} SpaceRunTrim(x: string, rest: string)
    requires TrimStart(x) != []
    ensures SpaceRun(x + rest, |x| - |TrimStart(x)|)
  {
    var pre := TrimSplit(x);
    SpaceRunPrefix(pre, TrimStart(x), rest);
  }

  lemma {:induction false} SpaceRunPrefix(pre: string, y: string, rest: string)
    requires forall i :: 0 <= i < |pre| ==> Space.Has(pre[i])
    requires y != [] && !Space.Has(y[0])
    ensures SpaceRun(pre + y + rest, |pre|)
  {
    assert pre + y + rest == pre + (y + rest);
    assert (y + rest)[0] == y[0];
    RunOf(pre, y + rest, Space);
  }

  /** A string is its leading whitespace followed by its `TrimStart`. */
  lemma TrimSplit(x: string) returns (pre: string)
    ensures x == pre + TrimStart(x) && |pre| == |x| - |TrimStart(x)|
    ensures forall i :: 0 <= i < |pre| ==> Space.Has(pre[i])
  {
    pre := x[..|x| - |TrimStart(x)|];
  }

  /** Leading whitespace does not change what `Strip` returns. */
  lemma {:induction false} StripTrimStart(x: string)
    ensures Strip(TrimStart(x)) == Strip(x)
  {
    var pre := TrimSplit(x);
    assert x == pre + TrimStart(x) + [];
    StripPadded(pre, TrimStart(x), []);
  }

  lemma {:induction false} ItemHeadShape(x: string, rest: string)
    ensures var t := "\\item" + x + rest;
      && "\\item" <= t && t[5..] == x + rest && |t| == 5 + |x| + |rest|
      && t[5 + |x|..] == rest
      && (forall j :: 5 <= j < 5 + |x| ==> t[j] == x[j - 5])
  {
    var t := "\\item" + x + rest;
    assert t[..5] == "\\item";
    assert t[5..] == x + rest;
  }

  /**
   * The scan takes `t[w..k]` as the first item when `\s*` stops at `w`
   * and the lookahead first holds at `k`, and goes on at `k`.
   */
  lemma ItemCapture(t: string, w: nat, k: nat)
    requires "\\item" <= t && 5 <= w < k <= |t| && SpaceRun(t[5..], w - 5)
    requires ItemEnd(t, k) && forall j :: w + 1 <= j < k ==> !ItemEnd(t, j)
    ensures Items(t) == [t[w..k]] + Items(t[k..])
  {
    StopsAtFirst(t, w + 1, k);
    ItemAtOf(t, w, k);
  }

  /** An item that another `\\item` follows ends right before it. */
  lemma {:induction false} InnerItemScan(t: string, w: nat, e: nat)
    requires "\\item" <= t && 5 <= w < e < |t| && SpaceRun(t[5..], w - 5)
    requires forall j :: 5 <= j < e ==> !OccursAt("\\item", t, j)
    requires OccursAt("\\item", t, e)
    ensures Items(t) == [t[w..e]] + Items(t[e..])
  {
    forall j | w + 1 <= j < e ensures !ItemEnd(t, j) {
      assert !OccursAt("\\item", t, j);
    }
    ItemCapture(t, w, e);
  }

  /**
   * The last item runs to the end of the block, or to just before a final
   * newline when something precedes it there, where `$` holds first.
   */
  lemma {:induction false} FinalItemScan(t: string, w: nat)
    requires "\\item" <= t && 5 <= w < |t| && SpaceRun(t[5..], w - 5)
    requires forall j :: 5 <= j < |t| ==> !OccursAt("\\item", t, j)
    ensures t[|t| - 1] == '\n' && w + 1 < |t| ==> Items(t) == [t[w..|t| - 1]]
    ensures !(t[|t| - 1] == '\n' && w + 1 < |t|) ==> Items(t) == [t[w..]]
  {
    var k := if t[|t| - 1] == '\n' && w + 1 < |t| then |t| - 1 else |t|;
    forall j | w + 1 <= j < k ensures !ItemEnd(t, j) {
      assert !OccursAt("\\item", t, j);
    }
    ItemCapture(t, w, k);
    if k < |t| {
      ItemsOfFinalNewline(t, k);
    } else {
      assert t[k..] == [];
      assert t[w..k] == t[w..];
    }
  }

  /** A final newline left behind by `$` holds no item. */
  lemma ItemsOfFinalNewline(t: string, k: nat)
    requires k + 1 == |t| && t[k] == '\n'
    ensures Items(t[k..]) == []
  {
    var s := t[k..];
    assert |s| == 1 && !("\\item" <= s);
    assert s[1..] == [];
  }

  /**
   * One item followed by more items: the capture is the item's text
   * without its leading whitespace, and the scan goes on at the next `\item`.
   */
  lemma {:induction false} ItemHeadMore(x: string, rest: string)
    requires PlainItem(x) && "\\item" <= rest
    ensures Items("\\item" + x + rest) == [TrimStart(x)] + Items(rest)
  {
    var t := "\\item" + x + rest;
    var r := |x| - |TrimStart(x)|;
    InnerItemFacts(x, rest);
    InnerItemScan(t, 5 + r, 5 + |x|);
    CaptureBeforeNext(t, x, rest, r);
  }

  /** What the scan of an item that another one follows needs to know. */
  lemma {:induction false} InnerItemFacts(x: string, rest: string)
    requires PlainItem(x) && "\\item" <= rest
    ensures var t := "\\item" + x + rest;
      && "\\item" <= t && 5 + |x| - |TrimStart(x)| < 5 + |x| < |t|
      && SpaceRun(t[5..], |x| - |TrimStart(x)|)
      && (forall j :: 5 <= j < 5 + |x| ==> !OccursAt("\\item", t, j))
      && OccursAt("\\item", t, 5 + |x|)
      && t[5 + |x|..] == rest && t[5..] == x + rest
  {
    var t := "\\item" + x + rest;
    ItemHeadShape(x, rest);
    SpaceRunTrim(x, rest);
    ItemTextInside(t, x, rest);
  }

  /** No `\item` starts inside an item text, up to the next `\item` or the end. */
  lemma {:induction false} ItemTextInside(t: string, x: string, rest: string)
    requires Absent("\\item", x) && (rest == [] || "\\item" <= rest)
    requires 5 <= |t| && t[5..] == x + rest
    ensures forall j :: 5 <= j < 5 + |x| ==> !OccursAt("\\item", t, j)
  {
    MarkersLead();
    assert rest == [] || rest[0] == "\\item"[0];
    forall j | 5 <= j < 5 + |x| ensures !OccursAt("\\item", t, j) {
      NoStraddle("\\item", x, rest, j - 5);
      assert t[j..] == (x + rest)[j - 5..];
    }
  }

  /** What the scan of the last item needs to know about `\item x`. */
  lemma {:induction false} FinalItemFacts(x: string)
    requires PlainItem(x)
    ensures var t := "\\item" + x;
      && "\\item" <= t && 5 + |x| - |TrimStart(x)| < |t|
      && SpaceRun(t[5..], |x| - |TrimStart(x)|)
      && (forall j :: 5 <= j < |t| ==> !OccursAt("\\item", t, j))
      && t[5..] == x
  {
    var t := "\\item" + x;
    ItemHeadShape(x, []);
    assert t == "\\item" + x + [];
    SpaceRunTrim(x, []);
    assert x + [] == x;
    ItemTextInside(t, x, []);
  }

  /**
   * The last item: the capture is its text without leading whitespace,
   * and without a final newline when that newline follows something else.
   */
  lemma {:induction false} ItemHeadLast(x: string) returns (c: string)
    requires PlainItem(x)
    ensures Items("\\item" + x) == [c] && (c == TrimStart(x) || TrimStart(x) == c + "\n")
  {
    var t := "\\item" + x;
    var ts := TrimStart(x);
    var r := |x| - |ts|;
    FinalItemFacts(x);
    FinalItemScan(t, 5 + r);
    if t[|t| - 1] == '\n' && 5 + r + 1 < |t| {
      c := t[5 + r..|t| - 1];
      CaptureBeforeNewline(t, x, r);
    } else {
      c := t[5 + r..];
      CaptureToEnd(t, x, r);
    }
  }

  lemma CaptureBeforeNewline(t: string, x: string, r: nat)
    requires 5 <= |t| && t[5..] == x && 5 + r + 1 < |t| && t[|t| - 1] == '\n'
    ensures x[r..] == t[5 + r..|t| - 1] + "\n"
  {
    assert x[r..] == t[5 + r..];
  }

  lemma CaptureBeforeNext(t: string, x: string, rest: string, r: nat)
    requires 5 <= |t| && t[5..] == x + rest && r <= |x|
    ensures x[r..] == t[5 + r..5 + |x|]
  {
    assert t[5 + r..5 + |x|] == (x + rest)[r..|x|];
  }

  lemma CaptureToEnd(t: string, x: string, r: nat)
    requires 5 <= |t| && t[5..] == x && r <= |x|
    ensures x[r..] == t[5 + r..]
  {
  }

  /** A trailing newline does not change what `Strip` returns. */
  lemma {:induction false} StripDropNewline(s: string, c: string)
    requires s == c + "\n"
    ensures Strip(s) == Strip(c)
  {
    assert s == [] + c + "\n";
    StripPadded([], c, "\n");
  }

  /**
   * The scan of one item: the captured text `c` strips to what the item's
   * text strips to, and the rest of the scan is the scan of `rest`.
   */
  lemma {:induction false} ItemHead(x: string, rest: string) returns (c: string)
    requires PlainItem(x) && (rest == [] || "\\item" <= rest)
    ensures Items("\\item" + x + rest) == [c] + Items(rest) && Strip(c) == Strip(x)
  {
    if rest != [] {
      ItemHeadMore(x, rest);
      c := TrimStart(x);
      StripTrimStart(x);
    } else {
      c := ItemHeadFinal(x);
      assert "\\item" + x + rest == "\\item" + x;
      assert Items(rest) == [];
    }
  }

  /** The last item: its capture strips to what the item text strips to. */
  lemma {:induction false} ItemHeadFinal(x: string) returns (c: string)
    requires PlainItem(x)
    ensures Items("\\item" + x) == [c] && Strip(c) == Strip(x)
  {
    c := ItemHeadLast(x);
    StripTrimStart(x);
    if c != TrimStart(x) {
      StripDropNewline(TrimStart(x), c);
    }
  }

  /** The strips of the captured items are those of the item texts, in order. */
  predicate SameStrips(ys: seq<string>, xs: seq<string>) {
    |ys| == |xs| && forall i :: 0 <= i < |xs| ==> Strip(ys[i]) == Strip(xs[i])
  }

  lemma ItemSourceHead(xs: seq<string>)
    ensures ItemSource(xs) == [] || "\\item" <= ItemSource(xs)
    ensures ItemSource(xs) == [] || ItemSource(xs)[0] == '\\'
  {
  }

  /** `findall` over a block of plain items captures one text per item. */
  lemma {:induction false} ItemsOfSource(xs: seq<string>)
    requires forall i :: 0 <= i < |xs| ==> PlainItem(xs[i])
    ensures SameStrips(Items(ItemSource(xs)), xs)
  {
    if xs == [] {
      assert Items(ItemSource(xs)) == [];
    } else {
      ItemsOfSource(xs[1..]);
      ItemsOfSourceStep(xs);
    }
  }

  /** One more plain item in front of the block adds its capture in front. */
  lemma {:induction false} ItemsOfSourceStep(xs: seq<string>)
    requires xs != [] && PlainItem(xs[0])
    requires SameStrips(Items(ItemSource(xs[1..])), xs[1..])
    ensures SameStrips(Items(ItemSource(xs)), xs)
  {
    ItemSourceCons(xs);
    ItemSourceHead(xs[1..]);
    ItemsCons(xs[0], ItemSource(xs[1..]), xs[1..]);
    assert [xs[0]] + xs[1..] == xs;
  }

  /** A plain item in front of text that starts an item or is empty. */
  lemma {:induction false} ItemsCons(x: string, rest: string, xs: seq<string>)
    requires PlainItem(x) && (rest == [] || "\\item" <= rest)
    requires SameStrips(Items(rest), xs)
    ensures SameStrips(Items("\\item" + x + rest), [x] + xs)
  {
    var c := ItemHead(x, rest);
    SameStripsCons(c, Items(rest), x, xs);
  }

  lemma ItemSourceCons(xs: seq<string>)
    requires xs != []
    ensures ItemSource(xs) == "\\item" + xs[0] + ItemSource(xs[1..])
  {
  }

  lemma SameStripsCons(c: string, ys: seq<string>, x: string, xs: seq<string>)
    requires Strip(c) == Strip(x) && SameStrips(ys, xs)
    ensures SameStrips([c] + ys, [x] + xs)
  {
    var cys := [c] + ys;
    var xxs := [x] + xs;
    assert cys[0] == c && xxs[0] == x;
    assert forall i :: 0 < i < |cys| ==> cys[i] == ys[i - 1];
    assert forall i :: 0 < i < |xxs| ==> xxs[i] == xs[i - 1];
  }

  /** Text without `\item` before the first `\item` captures nothing. */
  lemma {:induction false} ItemsSkipPrefix(pre: string, t: string)
    requires Absent("\\item", pre) && (t == [] || t[0] == '\\')
    ensures Items(pre + t) == Items(t)
  {
    if pre != [] {
      var s := pre + t;
      MarkersLead();
      NoStraddle("\\item", pre, t, 0);
      assert s[0..] == s;
      assert s[1..] == pre[1..] + t;
      AbsentTail("\\item", pre);
      ItemsSkipPrefix(pre[1..], t);
    } else {
      assert pre + t == t;
    }
  }

  /** A bullet list depends on its items only through their strips. */
  lemma BulletListOfStrips(ys: seq<string>, xs: seq<string>)
    requires SameStrips(ys, xs)
    ensures BulletList(ys) == BulletList(xs)
  {
    assert seq(|ys|, i requires 0 <= i < |ys| => "- " + Strip(ys[i]))
      == seq(|xs|, i requires 0 <= i < |xs| => "- " + Strip(xs[i]));
  }

  lemma ItemizeShape(body: string, b: string)
    ensures var t := ("\\begin{itemize}" + body + "\\end{itemize}") + b;
      && "\\begin{itemize}" <= t
      && t[15..15 + |body|] == body
      && OccursAt("\\end{itemize}", t, 15 + |body|)
      && |"\\begin{itemize}" + body + "\\end{itemize}"| == 15 + |body| + 13
  {
    var t := ("\\begin{itemize}" + body + "\\end{itemize}") + b;
    assert t[..15] == "\\begin{itemize}";
    assert t[15 + |body|..][..13] == "\\end{itemize}";
  }

  /** The block ends at the first `\end{itemize}`, which is the one after the items. */
  lemma {:induction false} ItemizeEnd(body: string, b: string)
    requires Absent("\\end{itemize}", body)
    ensures EndsAt(("\\begin{itemize}" + body + "\\end{itemize}") + b, 15 + |body|)
  {
    var t := ("\\begin{itemize}" + body + "\\end{itemize}") + b;
    var u := body + ("\\end{itemize}" + b);
    ItemizeShape(body, b);
    MarkersLead();
    assert t[15..] == u;
    forall k | 15 <= k < 15 + |body| ensures !OccursAt("\\end{itemize}", t, k) {
      NoStraddle("\\end{itemize}", body, "\\end{itemize}" + b, k - 15);
      assert t[k..] == u[k - 15..];
    }
  }

  lemma ItemizeAtOf(t: string, j: nat)
    requires "\\begin{itemize}" <= t && 15 <= j && EndsAt(t, j)
    ensures j + 13 <= |t| && ItemizeAt(t) == Some(Hit(j + 13, BulletList(Items(t[15..j]))))
  {
  }

  /** The match of a whole `itemize` environment: replaced by the bullet list. */
  lemma {:induction false} ItemizeMatch(pre: string, xs: seq<string>, b: string)
    requires Absent("\\item", pre) && forall i :: 0 <= i < |xs| ==> PlainItem(xs[i])
    requires Absent("\\end{itemize}", pre + ItemSource(xs))
    ensures var src := "\\begin{itemize}" + pre + ItemSource(xs) + "\\end{itemize}";
      ItemizeAt(src + b) == Some(Hit(|src|, BulletList(xs)))
  {
    var items := ItemSource(xs);
    ItemizeAtBody(pre + items, b);
    ItemizeItems(pre, xs);
    ItemizeRegroup(pre, items);
  }

  /** The environment around `pre` and the items is the one around their concatenation. */
  lemma ItemizeRegroup(pre: string, items: string)
    ensures "\\begin{itemize}" + pre + items + "\\end{itemize}"
      == "\\begin{itemize}" + (pre + items) + "\\end{itemize}"
  {
  }

  /** An environment whose body holds no `\end{itemize}` is matched whole. */
  lemma {:induction false} ItemizeAtBody(body: string, b: string)
    requires Absent("\\end{itemize}", body)
    ensures var src := "\\begin{itemize}" + body + "\\end{itemize}";
      ItemizeAt(src + b) == Some(Hit(|src|, BulletList(Items(body))))
  {
    var t := ("\\begin{itemize}" + body + "\\end{itemize}") + b;
    ItemizeShape(body, b);
    ItemizeEnd(body, b);
    ItemizeAtOf(t, 15 + |body|);
  }

  /** The captures of the block give the list of the item texts. */
  lemma {:induction false} ItemizeItems(pre: string, xs: seq<string>)
    requires Absent("\\item", pre) && forall i :: 0 <= i < |xs| ==> PlainItem(xs[i])
    ensures BulletList(Items(pre + ItemSource(xs))) == BulletList(xs)
  {
    ItemSourceHead(xs);
    ItemsSkipPrefix(pre, ItemSource(xs));
    ItemsOfSource(xs);
    BulletListOfStrips(Items(ItemSource(xs)), xs);
  }

  /**
   * An `itemize` environment becomes a bullet list with one `- ` line per
   * `\item`, holding the item's stripped text; text before the first
   * `\item` is dropped. The block runs to the first `\end{itemize}`.
   */
  lemma {:induction false} ItemizeRewritten(a: string, pre: string, xs: seq<string>, b: string)
    requires '\\' !in a && Absent("\\item", pre)
    requires forall i :: 0 <= i < |xs| ==> PlainItem(xs[i])
    requires Absent("\\end{itemize}", pre + ItemSource(xs))
    ensures Rewrite(Itemize, a + ("\\begin{itemize}" + pre + ItemSource(xs) + "\\end{itemize}") + b)
      == a + BulletList(xs) + Rewrite(Itemize, b)
  {
    var src := "\\begin{itemize}" + pre + ItemSource(xs) + "\\end{itemize}";
    ItemizeMatch(pre, xs, b);
    RewriteAt(Itemize, a, src, b, Hit(|src|, BulletList(xs)));
  }

  lemma StripOfLetter(pre: string, c: char, post: string)
    requires forall i :: 0 <= i < |pre| ==> IsSpace(pre[i])
    requires forall i :: 0 <= i < |post| ==> IsSpace(post[i])
    requires !IsSpace(c)
    ensures Strip(pre + [c] + post) == [c]
  {
    StripPadded(pre, [c], post);
  }

  lemma ItemSourceOfTwo(x: string, y: string)
    ensures ItemSource([x, y]) == "\\item" + x + ("\\item" + y)
  {
    var xs := [x, y];
    assert xs[1..][1..] == [];
    assert ItemSource(xs[1..]) == "\\item" + y + [];
  }

  lemma BulletListOfTwo(x: string, y: string)
    ensures BulletList([x, y]) == "- " + Strip(x) + "\n" + ("- " + Strip(y)) + "\n"
  {
    var xs := [x, y];
    var lines := ["- " + Strip(x), "- " + Strip(y)];
    assert seq(|xs|, i requires 0 <= i < |xs| => "- " + Strip(xs[i])) == lines;
    assert lines[1..] == ["- " + Strip(y)];
    assert JoinLines(lines) == lines[0] + "\n" + JoinLines(lines[1..]);
  }

  lemma Unpadded(t: string)
    ensures [] + t + [] == t
  {
  }

  lemma ExampleItems(x: string, y: string)
    requires |x| == 3 && x[0] == ' ' && x[1] == 'A' && x[2] == '\n'
    requires |y| == 3 && y[0] == ' ' && y[1] == 'B' && y[2] == '\n'
    ensures Strip(x) == "A" && Strip(y) == "B"
  {
    StripOfShort(x, 'A');
    StripOfShort(y, 'B');
  }

  /** A letter between one whitespace character on each side strips to itself. */
  lemma StripOfShort(x: string, c: char)
    requires |x| == 3 && IsSpace(x[0]) && x[1] == c && IsSpace(x[2]) && !IsSpace(c)
    ensures Strip(x) == [c]
  {
    assert x == [x[0]] + [c] + [x[2]];
    StripOfLetter([x[0]], c, [x[2]]);
  }

  /**
   * A two-item list: `\begin{itemize}`, a newline, `\item A`
   * and `\item B` on lines of their own, then `\end{itemize}`, becomes
   * `- A\n- B\n`. The parts are parameters given character by character,
   * so that the scan is reasoned about through the lemmas above rather
   * than unfolded on a literal.
   */
  lemma {:induction false} ItemizeExample(s: string, pre: string, x: string, y: string)
    requires |pre| == 1 && pre[0] == '\n'
    requires |x| == 3 && x[0] == ' ' && x[1] == 'A' && x[2] == '\n'
    requires |y| == 3 && y[0] == ' ' && y[1] == 'B' && y[2] == '\n'
    requires s == "\\begin{itemize}" + pre + ("\\item" + x + ("\\item" + y)) + "\\end{itemize}"
    ensures Rewrite(Itemize, s) == "- A\n- B\n"
  {
    ExampleItems(x, y);
    ExampleAbsent(pre, x, y);
    TwoItemsListed(s, pre, x, y, "A", "B");
    ExampleList();
  }

  /** Two plain items whose texts strip to `a` and `b` give the lines `- a` and `- b`. */
  lemma {:induction false} TwoItemsListed(s: string, pre: string, x: string, y: string, a: string, b: string)
    requires Absent("\\item", pre) && Absent("\\item", x) && Absent("\\item", y)
    requires Absent("\\end{itemize}", pre + ("\\item" + x + ("\\item" + y)))
    requires Strip(x) == a && Strip(y) == b && a != [] && b != []
    requires s == "\\begin{itemize}" + pre + ("\\item" + x + ("\\item" + y)) + "\\end{itemize}"
    ensures Rewrite(Itemize, s) == "- " + a + "\n" + ("- " + b) + "\n"
  {
    TwoItemsRewritten(s, pre, x, y);
    BulletListOfTwo(x, y);
  }

  /** An environment of two plain items becomes their two-line list. */
  lemma {:induction false} TwoItemsRewritten(s: string, pre: string, x: string, y: string)
    requires Absent("\\item", pre) && PlainItem(x) && PlainItem(y)
    requires Absent("\\end{itemize}", pre + ("\\item" + x + ("\\item" + y)))
    requires s == "\\begin{itemize}" + pre + ("\\item" + x + ("\\item" + y)) + "\\end{itemize}"
    ensures Rewrite(Itemize, s) == BulletList([x, y])
  {
    var xs := [x, y];
    ItemSourceOfTwo(x, y);
    ItemizeRewritten([], pre, xs, []);
    Unpadded(s);
    Unpadded(BulletList(xs));
    assert Rewrite(Itemize, []) == [];
  }

  /** Short texts hold neither marker, and the example's body holds no `\end{itemize}`. */
  lemma {:induction false} ExampleAbsent(pre: string, x: string, y: string)
    requires |pre| == 1 && |x| == 3 && |y| == 3
    ensures Absent("\\item", pre) && Absent("\\item", x) && Absent("\\item", y)
    ensures Absent("\\end{itemize}", pre + ("\\item" + x + ("\\item" + y)))
  {
    MarkersLead();
    assert Absent("\\end{itemize}", y) && Absent("\\end{itemize}", x) && Absent("\\end{itemize}", pre);
    EndAbsentAfterItem(y);
    AbsentConcat("\\end{itemize}", x, "\\item" + y);
    EndAbsentAfterItem(x + ("\\item" + y));
    assert "\\item" + x + ("\\item" + y) == "\\item" + (x + ("\\item" + y));
    AbsentConcat("\\end{itemize}", pre, "\\item" + x + ("\\item" + y));
  }

  lemma ExampleList()
    ensures "- " + "A" + "\n" + ("- " + "B") + "\n" == "- A\n- B\n"
  {
  }
}
