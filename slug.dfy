// Slug cleaning shared by both revisions: `_clean_slug_text` in
// zotero_files2md/utils.py, written inline in zotero_pdf2md's `slugify`.
// The cleaning is a chain of four rewrites, each a function here:
// strip whitespace, replace every run of disallowed characters by one "-",
// collapse runs of "-", strip "-", "." and "_" from both ends.
module Slug {
  import opened Text

  /** Slugs are cut to this many characters ("keep filenames manageable"). */
  const MaxSlugLength: nat := 120

  /** The characters a slug may hold: `A-Za-z0-9._-`. */
  predicate IsSlugChar(c: char) {
    ('A' <= c <= 'Z') || ('a' <= c <= 'z') || ('0' <= c <= '9') || c == '.' || c == '_' || c == '-'
  }

  predicate AllSlugChars(s: string) {
    forall i :: 0 <= i < |s| ==> IsSlugChar(s[i])
  }

  /** No two adjacent dashes. */
  ghost predicate NoDoubleDash(s: string) {
    forall i, j :: 0 <= i < j < |s| && j == i + 1 ==> !(s[i] == '-' && s[j] == '-')
  }

  /** The characters `strip("-._")` removes from both ends. */
  const EdgeChars: set<char> := {'-', '.', '_'}

  /** Text that cleaning leaves as it is. */
  ghost predicate IsClean(s: string) {
    AllSlugChars(s) && NoDoubleDash(s) && (s != [] ==> s[0] !in EdgeChars && s[|s| - 1] !in EdgeChars)
  }

  /** Unicode NFKD normalisation. The model covers text that is already in
      NFKD form (all ASCII text is), on which normalisation changes nothing. */
  function Nfkd(s: string): string {
    s
  }

  /** Drops the leading run of characters outside `A-Za-z0-9._-`. */
  function SkipNonSlug(s: string): (r: string)
    ensures |r| <= |s|
    ensures r != [] ==> IsSlugChar(r[0])
  {
    if s != [] && !IsSlugChar(s[0]) then SkipNonSlug(s[1..]) else s
  }

  /** Text that ends with a slug character keeps that end when its leading
      disallowed characters are skipped. */
  lemma {:induction false} SkipNonSlugKeepsLast(s: string)
    requires s != [] && IsSlugChar(s[|s| - 1])
    ensures SkipNonSlug(s) != [] && SkipNonSlug(s)[|SkipNonSlug(s)| - 1] == s[|s| - 1]
    decreases |s|
  {
    if !IsSlugChar(s[0]) {
      assert s[1..][|s| - 2] == s[|s| - 1];
      SkipNonSlugKeepsLast(s[1..]);
    }
  }

  /** `re.sub(r"[^A-Za-z0-9._-]+", "-", s)`: every maximal run of disallowed
      characters becomes one "-". */
  function ReplaceDisallowed(s: string): (r: string)
    ensures AllSlugChars(r)
    decreases |s|
  {
    if s == [] then []
    else if IsSlugChar(s[0]) then [s[0]] + ReplaceDisallowed(s[1..])
    else "-" + ReplaceDisallowed(SkipNonSlug(s[1..]))
  }

  /** Text that is empty or ends with a slug character: a run of
      disallowed characters after it starts a new run. */
  predicate EndsInSlugChar(s: string) {
    s == [] || IsSlugChar(s[|s| - 1])
  }

  /** Text that is empty or starts with a slug character: it ends a run of
      disallowed characters before it. */
  predicate StartsWithSlugChar(s: string) {
    s == [] || IsSlugChar(s[0])
  }

  /** A non-empty run of characters outside `A-Za-z0-9._-`. */
  predicate DisallowedRun(d: string) {
    d != [] && forall i :: 0 <= i < |d| ==> !IsSlugChar(d[i])
  }

  /** Skipping a whole run of disallowed characters lands on what follows it. */
  lemma {:induction false} SkipNonSlugRun(d: string, w: string)
    requires forall i :: 0 <= i < |d| ==> !IsSlugChar(d[i])
    requires StartsWithSlugChar(w)
    ensures SkipNonSlug(d + w) == w
    decreases |d|
  {
    if d != [] {
      HeadTailOfAppend(d, w);
      SkipNonSlugRun(d[1..], w);
    } else {
      assert d + w == w;
    }
  }

  /** Skipping from text that holds a slug character stops inside it. */
  lemma {:induction false} SkipNonSlugAppend(x: string, y: string)
    requires exists i :: 0 <= i < |x| && IsSlugChar(x[i])
    ensures SkipNonSlug(x + y) == SkipNonSlug(x) + y
    decreases |x|
  {
    HeadTailOfAppend(x, y);
    if !IsSlugChar(x[0]) {
      var i :| 0 <= i < |x| && IsSlugChar(x[i]);
      assert 0 <= i - 1 < |x[1..]| && IsSlugChar(x[1..][i - 1]);
      SkipNonSlugAppend(x[1..], y);
    }
  }

  /** After a slug character (or at the start) no run of disallowed
      characters spans the boundary, so the two sides are rewritten apart. */
  lemma {:induction false} ReplaceDisallowedAppend(x: string, y: string)
    requires EndsInSlugChar(x)
    ensures ReplaceDisallowed(x + y) == ReplaceDisallowed(x) + ReplaceDisallowed(y)
    decreases |x|
  {
    if x == [] {
      assert x + y == y;
    } else if IsSlugChar(x[0]) {
      ReplaceDisallowedAppend(x[1..], y);
      SlugCharStep(x, y);
    } else {
      assert IsSlugChar(x[1..][|x| - 2]);
      var v := SkipNonSlug(x[1..]);
      SkipNonSlugKeepsLast(x[1..]);
      SkipNonSlugAppend(x[1..], y);
      ReplaceDisallowedAppend(v, y);
      DisallowedStep(x, v, y);
    }
  }

  /** The step of `ReplaceDisallowedAppend` past a leading slug character. */
  lemma SlugCharStep(x: string, y: string)
    requires x != [] && IsSlugChar(x[0])
    requires ReplaceDisallowed(x[1..] + y) == ReplaceDisallowed(x[1..]) + ReplaceDisallowed(y)
    ensures ReplaceDisallowed(x + y) == ReplaceDisallowed(x) + ReplaceDisallowed(y)
  {
    HeadTailOfAppend(x, y);
    Associate([x[0]], ReplaceDisallowed(x[1..]), ReplaceDisallowed(y));
  }

  /** The step of `ReplaceDisallowedAppend` past a leading run of
      disallowed characters, which ends where `v` starts. */
  lemma DisallowedStep(x: string, v: string, y: string)
    requires x != [] && !IsSlugChar(x[0]) && v == SkipNonSlug(x[1..])
    requires SkipNonSlug(x[1..] + y) == v + y
    requires ReplaceDisallowed(v + y) == ReplaceDisallowed(v) + ReplaceDisallowed(y)
    ensures ReplaceDisallowed(x + y) == ReplaceDisallowed(x) + ReplaceDisallowed(y)
  {
    HeadTailOfAppend(x, y);
    Associate("-", ReplaceDisallowed(v), ReplaceDisallowed(y));
  }

  /** A run of disallowed characters followed by a slug character (or by
      nothing) becomes one leading "-". */
  lemma RunAtStart(d: string, w: string)
    requires DisallowedRun(d) && StartsWithSlugChar(w)
    ensures ReplaceDisallowed(d + w) == "-" + ReplaceDisallowed(w)
  {
    HeadTailOfAppend(d, w);
    SkipNonSlugRun(d[1..], w);
  }

  /** A maximal run of disallowed characters (slug characters, or nothing,
      on both sides) becomes exactly one "-", and the text on either side is
      rewritten on its own. */
  lemma ReplaceDisallowedRun(u: string, d: string, w: string)
    requires EndsInSlugChar(u) && DisallowedRun(d) && StartsWithSlugChar(w)
    ensures ReplaceDisallowed(u + d + w) == ReplaceDisallowed(u) + "-" + ReplaceDisallowed(w)
  {
    ReplaceDisallowedAppend(u, d + w);
    RunAtStart(d, w);
    Associate(u, d, w);
    Associate(ReplaceDisallowed(u), "-", ReplaceDisallowed(w));
  }

  /** Drops the leading run of dashes. */
  function SkipDashes(s: string): (r: string)
    ensures |r| <= |s| && r == s[|s| - |r|..]
    ensures r != [] ==> r[0] != '-'
  {
    if s != [] && s[0] == '-' then SkipDashes(s[1..]) else s
  }

  /** `re.sub(r"-{2,}", "-", s)`: every run of two or more dashes becomes one. */
  function CollapseDashes(s: string): (r: string)
    ensures NoDoubleDash(r)
    ensures AllSlugChars(s) ==> AllSlugChars(r)
    ensures r == [] <==> s == []
    ensures s != [] ==> r[0] == s[0]
    decreases |s|
  {
    if s == [] then []
    else if s[0] == '-' then
      var t := SkipDashes(s[1..]);
      var rest := CollapseDashes(t);
      assert AllSlugChars(s) ==> AllSlugChars(t) by {
        if AllSlugChars(s) {
          assert t == s[|s| - |t|..];
          forall i | 0 <= i < |t| ensures IsSlugChar(t[i]) { assert t[i] == s[|s| - |t| + i]; }
        }
      }
      PrependKeepsShape('-', rest);
      "-" + rest
    else
      var rest := CollapseDashes(s[1..]);
      assert AllSlugChars(s) ==> AllSlugChars(s[1..]);
      PrependKeepsShape(s[0], rest);
      [s[0]] + rest
  }

  /** Putting `c` in front of text without double dashes keeps it so,
      unless both are dashes. */
  lemma PrependKeepsShape(c: char, r: string)
    requires NoDoubleDash(r)
    requires c == '-' && r != [] ==> r[0] != '-'
    ensures NoDoubleDash([c] + r)
    ensures IsSlugChar(c) && AllSlugChars(r) ==> AllSlugChars([c] + r)
    ensures ([c] + r)[0] == c
  {
    var s := [c] + r;
    forall i, j | 0 <= i < j < |s| && j == i + 1 ensures !(s[i] == '-' && s[j] == '-') {
      if i > 0 { assert s[i] == r[i - 1] && s[j] == r[j - 1]; }
    }
  }

  /** `_clean_slug_text`: the result is made of slug characters, has no "--"
      and neither starts nor ends with "-", "." or "_". */
  function CleanSlugText(text: string): (r: string)
    ensures IsClean(r)
  {
    var collapsed := Collapsed(text);
    StripEdgesKeepsSlugs(collapsed);
    StripEdges(collapsed)
  }

  /** The first three rewrites of `_clean_slug_text`, before the ends are stripped. */
  function Collapsed(text: string): (r: string)
    ensures AllSlugChars(r) && NoDoubleDash(r)
  {
    CollapseDashes(ReplaceDisallowed(Strip(Nfkd(text))))
  }

  /** `s.strip("-._")`. */
  function StripEdges(s: string): (r: string)
    ensures r != [] ==> r[0] !in EdgeChars && r[|r| - 1] !in EdgeChars
  {
    StripChars(s, EdgeChars)
  }

  /** Stripping the ends of a slug without "--" leaves clean text. */
  lemma StripEdgesKeepsSlugs(s: string)
    requires AllSlugChars(s) && NoDoubleDash(s)
    ensures IsClean(StripEdges(s))
  {
    SliceKeepsSlugShape(s, StripOffset(s, EdgeChars), StripEdges(s));
  }

  /** A piece of text made of slug characters without "--" has the same two
      properties. */
  lemma SliceKeepsSlugShape(s: string, lo: nat, t: string)
    requires lo + |t| <= |s| && t == s[lo..lo + |t|]
    requires AllSlugChars(s) && NoDoubleDash(s)
    ensures AllSlugChars(t) && NoDoubleDash(t)
  {
    forall i | 0 <= i < |t| ensures IsSlugChar(t[i]) {
      assert t[i] == s[lo + i];
    }
    forall i, j | 0 <= i < j < |t| && j == i + 1 ensures !(t[i] == '-' && t[j] == '-') {
      assert t[i] == s[lo + i] && t[j] == s[lo + j];
    }
  }

  /** `s[:n]`. */
  function Truncate(s: string, n: nat): (r: string)
    ensures |r| <= n && |r| <= |s|
    ensures |s| <= n ==> r == s
    ensures r == s[..|r|]
    ensures |r| == |s| || |r| == n
  {
    if |s| <= n then s else s[..n]
  }

  /** Cutting clean text keeps its characters, its single dashes and its
      first character (the last one may become "-", "." or "_"). */
  lemma TruncateClean(s: string, n: nat)
    requires IsClean(s) && s != [] && n > 0
    ensures Truncate(s, n) != [] && Truncate(s, n)[0] !in EdgeChars
    ensures AllSlugChars(Truncate(s, n)) && NoDoubleDash(Truncate(s, n))
    ensures |Truncate(s, n)| == if |s| < n then |s| else n
  {
    var r := Truncate(s, n);
    SliceKeepsSlugShape(s, 0, r);
    assert r[0] == s[0];
  }

  predicate IsAlnum(c: char) {
    ('A' <= c <= 'Z') || ('a' <= c <= 'z') || ('0' <= c <= '9')
  }

  /** Letters and digits alone are clean text. */
  lemma AlnumIsClean(s: string)
    requires forall i :: 0 <= i < |s| ==> IsAlnum(s[i])
    ensures IsClean(s)
  {
  }

  /** The last-resort slug "item" is clean. */
  lemma ItemIsClean()
    ensures IsClean("item")
  {
  }

  lemma {:induction false} ReplaceDisallowedFixesSlugText(s: string)
    requires AllSlugChars(s)
    ensures ReplaceDisallowed(s) == s
  {
    if s != [] {
      ReplaceDisallowedFixesSlugText(s[1..]);
    }
  }

  lemma {:induction false} CollapseDashesFixesSingleDashes(s: string)
    requires NoDoubleDash(s)
    ensures CollapseDashes(s) == s
  {
    if s != [] {
      if s[0] == '-' {
        assert s[1..] == [] || s[1] != '-';
        assert SkipDashes(s[1..]) == s[1..];
      }
      CollapseDashesFixesSingleDashes(s[1..]);
    }
  }

  lemma SlugCharsAreNotWhitespace(c: char)
    requires IsSlugChar(c)
    ensures !IsSpace(c)
  {
  }

  /** Cleaning is the identity exactly on clean text. */
  lemma {:induction false} CleanSlugTextFixpoints(s: string)
    ensures CleanSlugText(s) == s <==> IsClean(s)
  {
    if IsClean(s) {
      if s != [] {
        SlugCharsAreNotWhitespace(s[0]);
        SlugCharsAreNotWhitespace(s[|s| - 1]);
      }
      assert Strip(Nfkd(s)) == s;
      ReplaceDisallowedFixesSlugText(s);
      CollapseDashesFixesSingleDashes(s);
      assert StripChars(s, EdgeChars) == s;
    }
  }

  /** Two words of letters and digits joined by one "-" are clean. */
  lemma DashJoinIsClean(u: string, w: string)
    requires u != [] && w != []
    requires forall i :: 0 <= i < |u| ==> IsAlnum(u[i])
    requires forall i :: 0 <= i < |w| ==> IsAlnum(w[i])
    ensures IsClean(u + "-" + w)
  {
    var t := u + "-" + w;
    forall i | 0 <= i < |t| ensures IsSlugChar(t[i]) {
      if i < |u| { assert t[i] == u[i]; } else if i > |u| { assert t[i] == w[i - |u| - 1]; }
    }
    forall i, j | 0 <= i < j < |t| && j == i + 1 ensures !(t[i] == '-' && t[j] == '-') {
      if i < |u| {
        assert t[i] == u[i] && IsAlnum(u[i]);
      } else {
        assert t[j] == w[j - |u| - 1] && IsAlnum(w[j - |u| - 1]);
      }
    }
    assert t[0] == u[0] && t[|t| - 1] == w[|w| - 1];
  }

  /** Two words of letters and digits with one space between them clean to
      the words joined by "-". */
  lemma CleanTwoWords(u: string, w: string)
    requires u != [] && w != []
    requires forall i :: 0 <= i < |u| ==> IsAlnum(u[i])
    requires forall i :: 0 <= i < |w| ==> IsAlnum(w[i])
    ensures CleanSlugText(u + " " + w) == u + "-" + w
  {
    var s, t := u + " " + w, u + "-" + w;
    assert s[0] == u[0] && s[|s| - 1] == w[|w| - 1];
    StripOfTrimmed(s);
    assert DisallowedRun(" ");
    ReplaceDisallowedRun(u, " ", w);
    ReplaceDisallowedFixesSlugText(u);
    ReplaceDisallowedFixesSlugText(w);
    assert ReplaceDisallowed(Strip(Nfkd(s))) == t;
    DashJoinIsClean(u, w);
    CleanSlugTextFixpoints(t);
    assert Collapsed(s) == Collapsed(t) by {
      SlugCharsAreNotWhitespace(t[0]);
      SlugCharsAreNotWhitespace(t[|t| - 1]);
      StripOfTrimmed(t);
      ReplaceDisallowedFixesSlugText(t);
    }
  }

  /** Cleaning twice is cleaning once. */
  lemma CleanSlugTextIdempotent(s: string)
    ensures CleanSlugText(CleanSlugText(s)) == CleanSlugText(s)
  {
    CleanSlugTextFixpoints(CleanSlugText(s));
  }
}
