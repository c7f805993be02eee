/** The two text patches applied to a copied template: the global, multi-line, case-insensitive
    rewrite of the theme style-sheet import in the root layout, and the `data-theme` attribute
    put on the first `<body>` tag of app.html. */
module Patches {
  import opened JsValues
  import opened Options

  // ---------------------------------------------------------------------------------------
  // The regular expression /theme-.*\.css';$/gim

  const ThemePrefix: string := "theme-"
  const CssSuffix: string := ".css';"

  /** The end of the line holding position i: the first line terminator at or after i, or the
      end of the text. With the `m` flag, `$` matches exactly there, and `.` never crosses it. */
  function LineEnd(t: string, i: nat): (e: nat)
    requires i <= |t|
    ensures i <= e <= |t|
    ensures e == |t| || IsLineTerminator(t[e])
    decreases |t| - i
  {
    if i == |t| || IsLineTerminator(t[i]) then i else LineEnd(t, i + 1)
  }

  /** No line terminator lies before the line end. */
  lemma {:induction false} LineEndFirst(t: string, i: nat)
    requires i <= |t|
    ensures forall k :: i <= k < LineEnd(t, i) ==> !IsLineTerminator(t[k])
    decreases |t| - i
  {
    if i < |t| && !IsLineTerminator(t[i]) {
      LineEndFirst(t, i + 1);
    }
  }

  /** The lower-case word w occurs at k in t, ignoring case. */
  predicate CiAt(t: string, k: nat, w: string)
    decreases |w|
  {
    k + |w| <= |t| && (w == [] || (LowerChar(t[k]) == w[0] && CiAt(t, k + 1, w[1..])))
  }

  /** `theme-` starts at k, ignoring case. */
  predicate ThemeAt(t: string, k: nat)
  {
    CiAt(t, k, ThemePrefix)
  }

  /** `.css';` ends at e, ignoring case. */
  predicate CssAt(t: string, e: nat)
  {
    6 <= e <= |t| && CiAt(t, e - 6, CssSuffix)
  }

  lemma {:induction false} CiAtChar(t: string, k: nat, w: string, m: nat)
    requires CiAt(t, k, w) && m < |w|
    ensures k + |w| <= |t| && LowerChar(t[k + m]) == w[m]
    decreases m
  {
    if m > 0 {
      CiAtChar(t, k + 1, w[1..], m - 1);
    }
  }

  /** Whether w occurs depends only on the case-folded characters where it would lie. */
  lemma {:induction false} CiAtSame(t: string, k: nat, u: string, l: nat, w: string)
    requires k + |w| <= |t| && l + |w| <= |u|
    requires forall j :: k <= j < k + |w| ==> LowerChar(t[j]) == LowerChar(u[j - k + l])
    ensures CiAt(t, k, w) == CiAt(u, l, w)
    decreases |w|
  {
    if w != [] {
      assert LowerChar(t[k]) == LowerChar(u[l]);
      CiAtSame(t, k + 1, u, l + 1, w[1..]);
    }
  }

  lemma {:induction false} CiAtIntro(t: string, k: nat, w: string)
    requires k + |w| <= |t|
    requires forall j :: k <= j < k + |w| ==> LowerChar(t[j]) == w[j - k]
    ensures CiAt(t, k, w)
    decreases |w|
  {
    if w != [] {
      assert LowerChar(t[k]) == w[0];
      forall j | k + 1 <= j < k + 1 + |w[1..]| ensures LowerChar(t[j]) == w[1..][j - (k + 1)] {
        assert LowerChar(t[j]) == w[j - k];
      }
      CiAtIntro(t, k + 1, w[1..]);
    }
  }

  /** Both words are lower case already. */
  lemma LowerWords()
    ensures forall m :: 0 <= m < |ThemePrefix| ==> LowerChar(ThemePrefix[m]) == ThemePrefix[m]
    ensures forall m :: 0 <= m < |CssSuffix| ==> LowerChar(CssSuffix[m]) == CssSuffix[m]
  {
  }

  /** The pattern matches at s: `theme-` there, then anything but a line terminator, then
      `.css';` right before the end of the line. The greedy `.*` makes the match run to the
      line end. */
  predicate MatchAt(t: string, s: nat)
    requires s <= |t|
  {
    ThemeAt(t, s) && var e := LineEnd(t, s); s + 12 <= e && CssAt(t, e)
  }

  /** `String.prototype.replace` with a global regular expression, scanning from i: at each
      position the pattern either matches, and the match is replaced and the scan resumes at its
      end, or the character is kept and the scan moves on by one. */
  function ScanReplace(t: string, i: nat, replacement: string): string
    requires i <= |t|
    decreases |t| - i
  {
    if i == |t| then []
    else if MatchAt(t, i) then
      var e := LineEnd(t, i);
      Substitute(replacement, t[i..e], t[..i], t[e..]) + ScanReplace(t, e, replacement)
    else [t[i]] + ScanReplace(t, i + 1, replacement)
  }

  /** The replacement text `theme-${opts.skeletontheme}.css';`. */
  function ThemeReplacement(theme: string): string
  {
    ThemePrefix + theme + CssSuffix
  }

  /** The layout patch of copyTemplate. */
  function ThemePatch(content: string, opts: Opts): string
  {
    ScanReplace(content, 0, ThemeReplacement(KeyText(opts, "skeletontheme")))
  }

  // ---------------------------------------------------------------------------------------
  // The same patch, line by line

  /** The first `theme-` that lies wholly in t[i..e], or e when there is none. */
  function ThemeFrom(t: string, i: nat, e: nat): (j: nat)
    requires i <= e <= |t|
    ensures i <= j <= e
    decreases e - i
  {
    if i + 6 > e then e else if ThemeAt(t, i) then i else ThemeFrom(t, i + 1, e)
  }

  /** What is found is a `theme-` lying wholly in t[i..e]. */
  lemma {:induction false} ThemeFromFound(t: string, i: nat, e: nat)
    requires i <= e <= |t|
    ensures ThemeFrom(t, i, e) == e || (ThemeFrom(t, i, e) + 6 <= e && ThemeAt(t, ThemeFrom(t, i, e)))
    decreases e - i
  {
    if i + 6 <= e && !ThemeAt(t, i) {
      ThemeFromFound(t, i + 1, e);
    }
  }

  /** No `theme-` lies wholly in t[i..e] before the one found. */
  lemma {:induction false} ThemeFromFirst(t: string, i: nat, e: nat)
    requires i <= e <= |t|
    ensures forall k :: i <= k < ThemeFrom(t, i, e) && k + 6 <= e ==> !ThemeAt(t, k)
    decreases e - i
  {
    if i + 6 <= e && !ThemeAt(t, i) {
      ThemeFromFirst(t, i + 1, e);
    }
  }

  /** The line t[i..e] after the patch: when it holds a `theme-` and ends in `.css';`, the part
      from its first `theme-` on is replaced. */
  function PatchLineAt(t: string, i: nat, e: nat, replacement: string): string
    requires i <= e <= |t|
  {
    var j := ThemeFrom(t, i, e);
    if j < e && CssAt(t, e) then t[i..j] + Substitute(replacement, t[j..e], t[..j], t[e..]) else t[i..e]
  }

  /** What becomes of the line t[a..b]. */
  type LineRule = (nat, nat) -> string

  /** The text from the line start i on with each line rewritten by the rule, line terminators
      kept. */
  function MapLines(t: string, i: nat, rule: LineRule): string
    requires i <= |t|
    decreases |t| - i
  {
    var e := LineEnd(t, i);
    rule(i, e) + if e == |t| then [] else [t[e]] + MapLines(t, e + 1, rule)
  }

  /** One step of MapLines: the first line, then the rest. */
  lemma MapLinesNext(t: string, i: nat, rule: LineRule)
    requires i <= |t|
    ensures var e := LineEnd(t, i);
      MapLines(t, i, rule) == rule(i, e) + if e == |t| then [] else [t[e]] + MapLines(t, e + 1, rule)
  {
  }

  /** Two rules that agree on every line give the same text. */
  lemma {:induction false} MapLinesEqual(t: string, i: nat, f: LineRule, g: LineRule)
    requires i <= |t|
    requires forall a :: i <= a <= |t| ==> f(a, LineEnd(t, a)) == g(a, LineEnd(t, a))
    ensures MapLines(t, i, f) == MapLines(t, i, g)
    decreases |t| - i
  {
    var e := LineEnd(t, i);
    if e < |t| {
      MapLinesEqual(t, e + 1, f, g);
    }
  }

  /** Rewriting the text after a prefix a, from a line start on, sees only what follows a. */
  lemma {:induction false} MapLinesAppend(a: string, b: string, k: nat, f: LineRule, g: LineRule)
    requires k <= |b|
    requires forall x :: k <= x <= |b| ==> f(|a| + x, |a| + LineEnd(b, x)) == g(x, LineEnd(b, x))
    ensures MapLines(a + b, |a| + k, f) == MapLines(b, k, g)
    decreases |b| - k
  {
    var e := LineEnd(b, k);
    LineEndAppend(a, b, k);
    if e < |b| {
      assert (a + b)[|a| + e] == b[e];
      MapLinesAppend(a, b, e + 1, f, g);
    }
  }

  /** Each line of t patched in place, where `$` patterns see the whole text. */
  function InPlace(t: string, replacement: string): LineRule
  {
    (a: nat, b: nat) => if a <= b <= |t| then PatchLineAt(t, a, b, replacement) else []
  }

  /** The patch applied line by line from the line start i. */
  function PatchLines(t: string, i: nat, replacement: string): string
    requires i <= |t|
  {
    MapLines(t, i, InPlace(t, replacement))
  }

  /** `theme-` and `.css';` cannot overlap: `-` is not a character of `.css';`. */
  lemma NoOverlap(t: string, j: nat, e: nat)
    requires ThemeAt(t, j) && j + 6 <= e && CssAt(t, e)
    ensures j + 12 <= e
  {
    if j + 12 > e {
      var p := j + 5;
      assert forall x :: 0 <= x < |CssSuffix| ==> CssSuffix[x] != '-';
      CiAtChar(t, j, ThemePrefix, 5);
      CiAtChar(t, e - 6, CssSuffix, p - (e - 6));
      assert false;
    }
  }

  /** Where the pattern does not match, the line-wise patch keeps the character too. */
  lemma PatchLineAtStep(t: string, i: nat, e: nat, replacement: string)
    requires i < e <= |t| && e == LineEnd(t, i) && !MatchAt(t, i)
    ensures PatchLineAt(t, i, e, replacement) == [t[i]] + PatchLineAt(t, i + 1, e, replacement)
  {
    if i + 6 <= e && ThemeAt(t, i) {
      assert ThemeFrom(t, i, e) == i;
      if CssAt(t, e) {
        NoOverlap(t, i, e);
        assert false;
      }
      assert t[i..e] == [t[i]] + t[i + 1..e];
    } else {
      var j := ThemeFrom(t, i + 1, e);
      assert ThemeFrom(t, i, e) == j;
      assert t[i..j] == [t[i]] + t[i + 1..j];
      assert t[i..e] == [t[i]] + t[i + 1..e];
    }
  }

  /** Within one line the scan replaces exactly what the line-wise patch replaces. */
  lemma {:induction false} ScanLine(t: string, i: nat, e: nat, replacement: string)
    requires i <= |t| && e == LineEnd(t, i)
    ensures ScanReplace(t, i, replacement) == PatchLineAt(t, i, e, replacement) + ScanReplace(t, e, replacement)
    decreases e - i
  {
    if i == e {
      assert PatchLineAt(t, i, e, replacement) == [];
    } else if MatchAt(t, i) {
      assert ThemeFrom(t, i, e) == i;
      assert t[i..i] == [];
    } else {
      assert LineEnd(t, i + 1) == e;
      ScanLine(t, i + 1, e, replacement);
      PatchLineAtStep(t, i, e, replacement);
      var a, b := PatchLineAt(t, i + 1, e, replacement), ScanReplace(t, e, replacement);
      assert [t[i]] + (a + b) == ([t[i]] + a) + b;
    }
  }

  /** The global regular-expression replace is the line-wise patch. */
  lemma {:induction false} ScanIsLineWise(t: string, i: nat, replacement: string)
    requires i <= |t|
    ensures ScanReplace(t, i, replacement) == PatchLines(t, i, replacement)
    decreases |t| - i
  {
    var e := LineEnd(t, i);
    ScanLine(t, i, e, replacement);
    if e < |t| {
      assert LineEnd(t, e) == e;
      assert !MatchAt(t, e);
      ScanIsLineWise(t, e + 1, replacement);
    }
  }

  // ---------------------------------------------------------------------------------------
  // Lines as values

  /** One line after the patch, for a replacement without `$` patterns. */
  function PatchLine(line: string, replacement: string): string
  {
    var j := ThemeFrom(line, 0, |line|);
    if j < |line| && CssAt(line, |line|) then line[..j] + replacement else line
  }

  /** The line patch for a fixed replacement, as a function of the line. */
  function PatchWith(replacement: string): string -> string
  {
    line => PatchLine(line, replacement)
  }

  /** Each line of t rewritten by f as a value of its own. */
  function ByContent(t: string, f: string -> string): LineRule
  {
    (a: nat, b: nat) => if a <= b <= |t| then f(t[a..b]) else []
  }

  /** The text from the line start i on after the patch, line by line. */
  function PatchTextFrom(t: string, i: nat, replacement: string): string
    requires i <= |t|
  {
    MapLines(t, i, ByContent(t, PatchWith(replacement)))
  }

  /** The whole text after the patch, line by line. */
  function PatchText(t: string, replacement: string): string
  {
    PatchTextFrom(t, 0, replacement)
  }

  lemma ThemeAtShift(t: string, i: nat, e: nat, k: nat)
    requires i + k + 6 <= e <= |t|
    ensures ThemeAt(t, i + k) == ThemeAt(t[i..e], k)
  {
    forall x | i + k <= x < i + k + |ThemePrefix|
      ensures LowerChar(t[x]) == LowerChar(t[i..e][x - (i + k) + k])
    {
      assert t[i..e][x - i] == t[x];
    }
    CiAtSame(t, i + k, t[i..e], k, ThemePrefix);
  }

  lemma CssAtShift(t: string, i: nat, e: nat)
    requires i + 6 <= e <= |t|
    ensures CssAt(t, e) == CssAt(t[i..e], e - i)
  {
    forall x | e - 6 <= x < e
      ensures LowerChar(t[x]) == LowerChar(t[i..e][x - (e - 6) + (e - i - 6)])
    {
      assert t[i..e][x - i] == t[x];
    }
    CiAtSame(t, e - 6, t[i..e], e - i - 6, CssSuffix);
  }

  lemma {:induction false} ThemeFromShift(t: string, i: nat, e: nat, k: nat)
    requires i + k <= e <= |t|
    ensures ThemeFrom(t, i + k, e) == i + ThemeFrom(t[i..e], k, e - i)
    decreases e - i - k
  {
    if i + k + 6 <= e {
      ThemeAtShift(t, i, e, k);
      if !ThemeAt(t, i + k) {
        ThemeFromShift(t, i, e, k + 1);
      }
    }
  }

  lemma PatchLineAtPlain(t: string, i: nat, e: nat, replacement: string)
    requires i <= e <= |t| && '$' !in replacement
    ensures PatchLineAt(t, i, e, replacement) == PatchLine(t[i..e], replacement)
  {
    var line := t[i..e];
    ThemeFromShift(t, i, e, 0);
    var j := ThemeFrom(t, i, e);
    assert j == i + ThemeFrom(line, 0, |line|);
    if j < e {
      PatchLineAtFound(t, i, e, replacement);
    }
  }

  lemma PatchLineAtFound(t: string, i: nat, e: nat, replacement: string)
    requires i <= e <= |t| && '$' !in replacement
    requires ThemeFrom(t, i, e) < e && ThemeFrom(t, i, e) == i + ThemeFrom(t[i..e], 0, e - i)
    ensures PatchLineAt(t, i, e, replacement) == PatchLine(t[i..e], replacement)
  {
    var line := t[i..e];
    var j := ThemeFrom(t, i, e);
    var j' := ThemeFrom(line, 0, |line|);
    assert j' < |line|;
    CssAtShift(t, i, e);
    if CssAt(t, e) {
      assert CssAt(line, |line|);
      SubstitutePlain(replacement, t[j..e], t[..j], t[e..]);
      assert PatchLineAt(t, i, e, replacement) == t[i..j] + replacement;
      assert PatchLine(line, replacement) == line[..j'] + replacement;
      assert line[..j'] == t[i..j];
    } else {
      assert !CssAt(line, |line|);
    }
  }

  /** For a replacement without `$` patterns the patch of a line depends on the line alone. */
  lemma PlainIsLineWise(t: string, i: nat, replacement: string)
    requires i <= |t| && '$' !in replacement
    ensures PatchLines(t, i, replacement) == PatchTextFrom(t, i, replacement)
  {
    forall a | i <= a <= |t|
      ensures InPlace(t, replacement)(a, LineEnd(t, a))
        == ByContent(t, PatchWith(replacement))(a, LineEnd(t, a))
    {
      PatchLineAtPlain(t, a, LineEnd(t, a), replacement);
    }
    MapLinesEqual(t, i, InPlace(t, replacement), ByContent(t, PatchWith(replacement)));
  }

  /** With a plain theme name, the layout patch is the line-wise patch of the text. */
  lemma ThemePatchLineWise(content: string, opts: Opts)
    requires '$' !in KeyText(opts, "skeletontheme")
    ensures ThemePatch(content, opts) == PatchText(content, ThemeReplacement(KeyText(opts, "skeletontheme")))
  {
    var replacement := ThemeReplacement(KeyText(opts, "skeletontheme"));
    assert '$' !in replacement by {
      assert replacement == ThemePrefix + KeyText(opts, "skeletontheme") + CssSuffix;
    }
    ScanIsLineWise(content, 0, replacement);
    PlainIsLineWise(content, 0, replacement);
  }

  // ---------------------------------------------------------------------------------------
  // Idempotence

  predicate OneLine(s: string)
  {
    forall k :: 0 <= k < |s| ==> !IsLineTerminator(s[k])
  }

  lemma LineEndOfLine(a: string)
    requires OneLine(a)
    ensures LineEnd(a, 0) == |a|
  {
    LineEndFirst(a, 0);
  }

  lemma LineEndBeforeTerminator(a: string, c: char, b: string)
    requires OneLine(a) && IsLineTerminator(c)
    ensures LineEnd(a + [c] + b, 0) == |a|
  {
    var t := a + [c] + b;
    LineEndFirst(t, 0);
    assert t[|a|] == c;
    assert forall k :: 0 <= k < |a| ==> t[k] == a[k];
  }

  /** The first `theme-` is the one before which there is none. */
  lemma ThemeFromIs(t: string, i: nat, e: nat, j: nat)
    requires i <= j && j + 6 <= e <= |t| && ThemeAt(t, j)
    requires forall k :: i <= k < j && k + 6 <= e ==> !ThemeAt(t, k)
    ensures ThemeFrom(t, i, e) == j
  {
    ThemeFromFirst(t, i, e);
    ThemeFromFound(t, i, e);
  }

  /** Putting the replacement at the first `theme-` of a line creates no earlier one. */
  lemma NoEarlierTheme(line: string, j: nat, r: string, k: nat)
    requires ThemeAt(line, j) && Framed(r)
    requires k < j && k + 6 <= j + |r| && !ThemeAt(line, k)
    ensures !ThemeAt(line[..j] + r, k)
  {
    var p := line[..j] + r;
    LowerWords();
    forall x | k <= x < k + |ThemePrefix|
      ensures LowerChar(p[x]) == LowerChar(line[x - k + k])
    {
      if x >= j {
        CiAtChar(line, j, ThemePrefix, x - j);
        assert p[x] == r[..6][x - j] == ThemePrefix[x - j];
      } else {
        assert p[x] == line[x];
      }
    }
    CiAtSame(p, k, line, k, ThemePrefix);
  }

  /** A replacement that starts with `theme-` and ends with `.css';`. */
  predicate Framed(r: string)
  {
    12 <= |r| && r[..6] == ThemePrefix && r[|r| - 6..] == CssSuffix
  }

  lemma ThemeReplacementFramed(theme: string)
    ensures Framed(ThemeReplacement(theme))
  {
    var r := ThemeReplacement(theme);
    assert r == ThemePrefix + theme + CssSuffix;
    assert r[..6] == ThemePrefix;
    assert r[|r| - 6..] == CssSuffix;
  }

  /** The first `theme-` of the patched line is where the replacement starts. */
  lemma ReplacedLineFirst(line: string, j: nat, r: string)
    requires Framed(r) && j + 6 <= |line| && j == ThemeFrom(line, 0, |line|)
    ensures ThemeFrom(line[..j] + r, 0, |line[..j] + r|) == j
  {
    var p := line[..j] + r;
    LowerWords();
    forall x | j <= x < j + |ThemePrefix| ensures LowerChar(p[x]) == ThemePrefix[x - j] {
      assert p[x] == r[..6][x - j];
    }
    CiAtIntro(p, j, ThemePrefix);
    ThemeFromFirst(line, 0, |line|);
    ThemeFromFound(line, 0, |line|);
    forall k | 0 <= k < j && k + 6 <= |p|
      ensures !ThemeAt(p, k)
    {
      NoEarlierTheme(line, j, r, k);
    }
    ThemeFromIs(p, 0, |p|, j);
  }

  /** The patched line ends with `.css';`. */
  lemma ReplacedLineCss(prefix: string, r: string)
    requires Framed(r)
    ensures CssAt(prefix + r, |prefix + r|)
  {
    var p := prefix + r;
    LowerWords();
    forall x | |p| - 6 <= x < |p| ensures LowerChar(p[x]) == CssSuffix[x - (|p| - 6)] {
      assert p[x] == r[|r| - 6..][x - (|p| - 6)];
    }
    CiAtIntro(p, |p| - 6, CssSuffix);
  }

  /** A line holding the replacement from its first `theme-` on is left as it is. */
  lemma PatchLineIdempotent(line: string, r: string)
    requires Framed(r)
    ensures PatchLine(PatchLine(line, r), r) == PatchLine(line, r)
  {
    var j := ThemeFrom(line, 0, |line|);
    ThemeFromFound(line, 0, |line|);
    if j < |line| && CssAt(line, |line|) {
      var p := line[..j] + r;
      ReplacedLineFirst(line, j, r);
      ReplacedLineCss(line[..j], r);
      assert p[..j] == line[..j];
    }
  }

  lemma OneLineReplacement(line: string, theme: string)
    requires OneLine(line) && OneLine(theme)
    ensures OneLine(PatchLine(line, ThemeReplacement(theme)))
  {
    var j := ThemeFrom(line, 0, |line|);
    var p := PatchLine(line, ThemeReplacement(theme));
    forall k | 0 <= k < |p| ensures !IsLineTerminator(p[k]) {
      if j < |line| && CssAt(line, |line|) && k >= j {
        var m := k - j;
        if m < 6 {
          assert p[k] == ThemePrefix[m];
        } else if m < 6 + |theme| {
          assert p[k] == theme[m - 6];
        } else {
          assert p[k] == CssSuffix[m - 6 - |theme|];
        }
      }
    }
  }

  lemma {:induction false} LineEndAppend(a: string, b: string, k: nat)
    requires k <= |b|
    ensures LineEnd(a + b, |a| + k) == |a| + LineEnd(b, k)
    decreases |b| - k
  {
    if k < |b| {
      assert (a + b)[|a| + k] == b[k];
      if !IsLineTerminator(b[k]) {
        LineEndAppend(a, b, k + 1);
      }
    }
  }

  lemma SliceAfter(a: string, b: string, x: nat, e: nat)
    requires x <= e <= |b|
    ensures (a + b)[|a| + x..|a| + e] == b[x..e]
  {
    assert forall k :: 0 <= k < e - x ==> (a + b)[|a| + x..|a| + e][k] == b[x..e][k];
  }

  /** Rewriting lines by their contents from the end of a prefix on sees only what follows it. */
  lemma ByContentAppend(a: string, b: string, k: nat, f: string -> string)
    requires k <= |b|
    ensures MapLines(a + b, |a| + k, ByContent(a + b, f)) == MapLines(b, k, ByContent(b, f))
  {
    forall x | k <= x <= |b|
      ensures ByContent(a + b, f)(|a| + x, |a| + LineEnd(b, x)) == ByContent(b, f)(x, LineEnd(b, x))
    {
      SliceAfter(a, b, x, LineEnd(b, x));
    }
    MapLinesAppend(a, b, k, ByContent(a + b, f), ByContent(b, f));
  }

  /** Patching from the end of a prefix on sees only what follows it. */
  lemma PatchTextFromAppend(a: string, b: string, k: nat, replacement: string)
    requires k <= |b|
    ensures PatchTextFrom(a + b, |a| + k, replacement) == PatchTextFrom(b, k, replacement)
  {
    ByContentAppend(a, b, k, PatchWith(replacement));
  }

  /** The first line of a patched text holds no line terminator and is left as it is by a
      second patch. */
  lemma PatchedLine(t: string, i: nat, theme: string)
    requires i <= |t| && OneLine(theme)
    ensures OneLine(PatchLine(t[i..LineEnd(t, i)], ThemeReplacement(theme)))
    ensures var line := PatchLine(t[i..LineEnd(t, i)], ThemeReplacement(theme));
      PatchLine(line, ThemeReplacement(theme)) == line
  {
    var e := LineEnd(t, i);
    LineEndFirst(t, i);
    assert OneLine(t[i..e]) by {
      forall k | 0 <= k < e - i ensures !IsLineTerminator(t[i..e][k]) {
        assert t[i..e][k] == t[i + k];
      }
    }
    OneLineReplacement(t[i..e], theme);
    ThemeReplacementFramed(theme);
    PatchLineIdempotent(t[i..e], ThemeReplacement(theme));
  }

  /** A text of one line that the patch leaves alone. */
  lemma LastLineKept(line: string, r: string)
    requires OneLine(line) && PatchLine(line, r) == line
    ensures PatchText(line, r) == line
  {
    LineEndOfLine(line);
    MapLinesNext(line, 0, ByContent(line, PatchWith(r)));
    assert line[0..|line|] == line;
  }

  /** A line the patch leaves alone, a terminator and a rest the patch leaves alone. */
  lemma NextLineKept(line: string, c: char, rest: string, r: string)
    requires OneLine(line) && IsLineTerminator(c) && PatchLine(line, r) == line
    requires PatchText(rest, r) == rest
    ensures PatchText(line + ([c] + rest), r) == line + ([c] + rest)
  {
    var x := line + ([c] + rest);
    assert x == line + [c] + rest;
    LineEndBeforeTerminator(line, c, rest);
    MapLinesNext(x, 0, ByContent(x, PatchWith(r)));
    assert x[0..|line|] == line;
    assert x[|line|] == c;
    PatchTextFromAppend(line + [c], rest, 0, r);
  }

  /** Patching a patched text changes nothing, for a theme name without line terminators. */
  lemma {:induction false} PatchTextIdempotent(t: string, i: nat, theme: string)
    requires i <= |t| && OneLine(theme)
    ensures PatchText(PatchTextFrom(t, i, ThemeReplacement(theme)), ThemeReplacement(theme))
      == PatchTextFrom(t, i, ThemeReplacement(theme))
    decreases |t| - i
  {
    var r := ThemeReplacement(theme);
    var e := LineEnd(t, i);
    var line := PatchLine(t[i..e], r);
    PatchedLine(t, i, theme);
    MapLinesNext(t, i, ByContent(t, PatchWith(r)));
    assert ByContent(t, PatchWith(r))(i, e) == line;
    if e == |t| {
      LastLineKept(line, r);
    } else {
      PatchTextIdempotent(t, e + 1, theme);
      NextLineKept(line, t[e], PatchTextFrom(t, e + 1, r), r);
    }
  }

  /** The layout patch is idempotent for a theme name without `$` and line terminators. */
  lemma ThemePatchIdempotent(content: string, opts: Opts)
    requires '$' !in KeyText(opts, "skeletontheme") && OneLine(KeyText(opts, "skeletontheme"))
    ensures ThemePatch(ThemePatch(content, opts), opts) == ThemePatch(content, opts)
  {
    ThemePatchLineWise(content, opts);
    ThemePatchLineWise(ThemePatch(content, opts), opts);
    PatchTextIdempotent(content, 0, KeyText(opts, "skeletontheme"));
  }

  // ---------------------------------------------------------------------------------------
  // The <body> patch

  const BodyOpen: string := "<body>"

  /** `<body data-theme="${opts.skeletontheme}">`. */
  function BodyTag(theme: string): string
  {
    "<body data-theme=\"" + theme + "\">"
  }

  /** `content.replace('<body>', tag)`: only the first `<body>` is replaced, the tag's `$`
      patterns expanded. */
  function BodyPatch(content: string, opts: Opts): string
  {
    var i := IndexOf(content, BodyOpen);
    if i < 0 then content
    else
      content[..i] + Substitute(BodyTag(KeyText(opts, "skeletontheme")), BodyOpen, content[..i], content[i + 6..])
      + content[i + 6..]
  }

  /** Without a `<body>` the page is unchanged. */
  lemma BodyPatchAbsent(content: string, opts: Opts)
    requires forall k :: !OccursAt(content, BodyOpen, k)
    ensures BodyPatch(content, opts) == content
  {
  }

  /** Otherwise the first `<body>` is the one replaced: the text before it and everything after
      it, later `<body>` tags included, is kept, so putting `<body>` back in place of the tag
      gives the page back. */
  lemma BodyPatchKeeps(content: string, opts: Opts)
    requires IndexOf(content, BodyOpen) >= 0
    ensures var i := IndexOf(content, BodyOpen); var r := BodyPatch(content, opts);
      var rest := |content| - (i + 6);
      && i + 6 <= |content| && content[i..i + 6] == BodyOpen
      && (forall k :: 0 <= k < i ==> !OccursAt(content, BodyOpen, k))
      && rest <= |r| - i
      && r[..i] + BodyOpen + r[|r| - rest..] == content
  {
    var i := IndexOf(content, BodyOpen);
    var after := content[i + 6..];
    var s := Substitute(BodyTag(KeyText(opts, "skeletontheme")), BodyOpen, content[..i], after);
    var r := BodyPatch(content, opts);
    assert r == content[..i] + s + after;
    assert r[..i] == content[..i];
    assert r[|r| - |after|..] == after;
    assert content == content[..i] + content[i..i + 6] + after;
  }

  /** With a theme name without `$` the new tag is exactly `<body data-theme="…">`. */
  lemma BodyPatchPlain(content: string, opts: Opts)
    requires IndexOf(content, BodyOpen) >= 0 && '$' !in KeyText(opts, "skeletontheme")
    ensures var i := IndexOf(content, BodyOpen);
      BodyPatch(content, opts) == content[..i] + BodyTag(KeyText(opts, "skeletontheme")) + content[i + 6..]
  {
    var i := IndexOf(content, BodyOpen);
    var theme := KeyText(opts, "skeletontheme");
    assert BodyTag(theme) == "<body data-theme=\"" + theme + "\">";
    assert '$' !in BodyTag(theme);
    SubstitutePlain(BodyTag(theme), BodyOpen, content[..i], content[i + 6..]);
  }
}
