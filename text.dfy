// The parts of Python's `str` behaviour that the exporter relies on:
// truthiness of optional strings, `strip`, `lower`, `split(sep, 1)`,
// `join`, `splitlines` and integer formatting.
module Text {
  import opened Wrappers

  /** The characters for which Python's `str.isspace()` is true (and which the
      regular-expression class `\s` matches in a `str` pattern): tab through
      carriage return, the four information separators and space, NEL,
      no-break space, ogham space mark, the en quad through hair space, the
      line and paragraph separators, narrow no-break space, medium
      mathematical space and ideographic space. */
  predicate IsSpace(c: char) {
    '\t' <= c <= '\r' || '\U{001C}' <= c <= ' ' || c == '\U{0085}' || c == '\U{00A0}' || c == '\U{1680}'
    || '\U{2000}' <= c <= '\U{200A}' || c == '\U{2028}' || c == '\U{2029}' || c == '\U{202F}'
    || c == '\U{205F}' || c == '\U{3000}'
  }

  /** The line boundaries recognised by Python's `str.splitlines()`: line
      feed through carriage return, the file, group and record separators,
      NEL, and the line and paragraph separators; "\r\n" is one boundary. */
  predicate IsLineBreak(c: char) {
    '\n' <= c <= '\r' || '\U{001C}' <= c <= '\U{001E}' || c == '\U{0085}' || c == '\U{2028}' || c == '\U{2029}'
  }

  /** Python truthiness of an optional string: present and non-empty. */
  predicate Truthy(o: Option<string>) {
    o.Some? && o.value != ""
  }

  /** Python's `a or b` on two optional strings. */
  function Or(a: Option<string>, b: Option<string>): (r: Option<string>)
    ensures Truthy(a) ==> r == a
    ensures !Truthy(a) ==> r == b
  {
    if Truthy(a) then a else b
  }

  /** Python's `a or b` where `b` is a string. */
  function OrText(a: Option<string>, b: string): (r: string)
    ensures Truthy(a) ==> r == a.value
    ensures !Truthy(a) ==> r == b
  {
    if Truthy(a) then a.value else b
  }

  /** `s.lstrip(cs)`: drops the longest prefix made of characters in `cs`. */
  function TrimLeft(s: string, cs: set<char>): (r: string)
    ensures |r| <= |s| && r == s[|s| - |r|..]
    ensures forall i :: 0 <= i < |s| - |r| ==> s[i] in cs
    ensures r != [] ==> r[0] !in cs
  {
    if s != [] && s[0] in cs then TrimLeft(s[1..], cs) else s
  }

  /** `s.rstrip(cs)`: drops the longest suffix made of characters in `cs`. */
  function TrimRight(s: string, cs: set<char>): (r: string)
    ensures |r| <= |s| && r == s[..|r|]
    ensures forall i :: |r| <= i < |s| ==> s[i] in cs
    ensures r != [] ==> r[|r| - 1] !in cs
  {
    if s != [] && s[|s| - 1] in cs then TrimRight(s[..|s| - 1], cs) else s
  }

  /** Where `s.strip(cs)` starts inside `s`: the length of the stripped prefix. */
  function StripOffset(s: string, cs: set<char>): (k: nat)
    ensures k + |TrimRight(TrimLeft(s, cs), cs)| <= |s|
  {
    |s| - |TrimLeft(s, cs)|
  }

  /** `s.strip(cs)`: the piece of `s` left once the longest prefix and suffix
      made of characters in `cs` are removed; it starts and ends outside `cs`. */
  function StripChars(s: string, cs: set<char>): (r: string)
    ensures |r| <= |s|
    ensures StripOffset(s, cs) + |r| <= |s| && r == s[StripOffset(s, cs)..StripOffset(s, cs) + |r|]
    ensures r != [] ==> r[0] !in cs && r[|r| - 1] !in cs
  {
    TrimRight(TrimLeft(s, cs), cs)
  }

  /** The index of the first non-space character of `s` at or after `i`, or
      `|s|` when there is none. */
  function SkipSpaces(s: string, i: nat): (k: nat)
    requires i <= |s|
    ensures i <= k <= |s|
    ensures k < |s| ==> !IsSpace(s[k])
    decreases |s| - i
  {
    if i < |s| && IsSpace(s[i]) then SkipSpaces(s, i + 1) else i
  }

  /** Everything `SkipSpaces` steps over is whitespace. */
  lemma {:induction false} SkipSpacesSkipsOnlySpace(s: string, i: nat)
    requires i <= |s|
    ensures forall m :: i <= m < SkipSpaces(s, i) ==> IsSpace(s[m])
    decreases |s| - i
  {
    if i < |s| && IsSpace(s[i]) {
      SkipSpacesSkipsOnlySpace(s, i + 1);
    }
  }

  /** The end of `s[..j]` once its trailing spaces, down to index `i`, are
      dropped. */
  function TrimSpaces(s: string, i: nat, j: nat): (e: nat)
    requires i <= j <= |s|
    ensures i <= e <= j
    ensures e > i ==> !IsSpace(s[e - 1])
  {
    if j > i && IsSpace(s[j - 1]) then TrimSpaces(s, i, j - 1) else j
  }

  /** Everything `TrimSpaces` drops is whitespace. */
  lemma {:induction false} TrimSpacesDropsOnlySpace(s: string, i: nat, j: nat)
    requires i <= j <= |s|
    ensures forall m :: TrimSpaces(s, i, j) <= m < j ==> IsSpace(s[m])
  {
    if j > i && IsSpace(s[j - 1]) {
      TrimSpacesDropsOnlySpace(s, i, j - 1);
    }
  }

  /** Python's `s.strip()`: what is left once leading and trailing
      whitespace are removed; the result starts and ends outside
      whitespace. */
  function Strip(s: string): (r: string)
    ensures |r| <= |s|
    ensures r != [] ==> !IsSpace(r[0]) && !IsSpace(r[|r| - 1])
  {
    var k := SkipSpaces(s, 0);
    s[k..TrimSpaces(s, k, |s|)]
  }

  /** `strip()` keeps the piece of `s` that starts at the first non-space
      character and removes only whitespace: everything before and after
      that piece is whitespace. */
  lemma StripRemovesOnlySpace(s: string)
    ensures SkipSpaces(s, 0) + |Strip(s)| <= |s|
    ensures Strip(s) == s[SkipSpaces(s, 0)..SkipSpaces(s, 0) + |Strip(s)|]
    ensures forall m :: 0 <= m < SkipSpaces(s, 0) ==> IsSpace(s[m])
    ensures forall m :: SkipSpaces(s, 0) + |Strip(s)| <= m < |s| ==> IsSpace(s[m])
  {
    SkipSpacesSkipsOnlySpace(s, 0);
    TrimSpacesDropsOnlySpace(s, SkipSpaces(s, 0), |s|);
  }

  /** A string that neither starts nor ends with whitespace is its own
      `strip()`. */
  lemma StripOfTrimmed(s: string)
    requires s != [] ==> !IsSpace(s[0]) && !IsSpace(s[|s| - 1])
    ensures Strip(s) == s
  {
    if s != [] {
      assert SkipSpaces(s, 0) == 0;
      assert TrimSpaces(s, 0, |s|) == |s|;
      assert s[0..|s|] == s;
    }
  }

  /** Stripping twice is stripping once. */
  lemma StripIdempotent(s: string)
    ensures Strip(Strip(s)) == Strip(s)
  {
    StripOfTrimmed(Strip(s));
  }

  /** Lower-casing of one character, restricted to ASCII letters. */
  function LowerChar(c: char): (r: char)
    ensures 'A' <= c <= 'Z' ==> r as int == c as int + 32
    ensures !('A' <= c <= 'Z') ==> r == c
  {
    if 'A' <= c <= 'Z' then (c as int + 32) as char else c
  }

  /** Python's `s.lower()` on ASCII letters; other characters are kept. */
  function Lower(s: string): (r: string)
    ensures |r| == |s|
    ensures forall i :: 0 <= i < |s| ==> r[i] == LowerChar(s[i])
  {
    if s == [] then [] else [LowerChar(s[0])] + Lower(s[1..])
  }

  /** Lower-casing does not turn a non-space character into a space. */
  lemma LowerCharKeepsNonSpace(c: char)
    requires !IsSpace(c)
    ensures !IsSpace(LowerChar(c))
  {
  }

  /** Lower-casing twice is lower-casing once. */
  lemma {:induction false} LowerIdempotent(s: string)
    ensures Lower(Lower(s)) == Lower(s)
  {
    if s != [] {
      LowerIdempotent(s[1..]);
      assert Lower(s)[1..] == Lower(s[1..]);
    }
  }

  /** Lower-casing a stripped string leaves it stripped. */
  lemma LowerStripped(s: string)
    requires Strip(s) == s
    ensures Strip(Lower(s)) == Lower(s)
  {
    var r := Lower(s);
    if s != [] {
      var first, last := s[0], s[|s| - 1];
      assert !IsSpace(first) && !IsSpace(last);
      LowerCharKeepsNonSpace(first);
      LowerCharKeepsNonSpace(last);
      assert r[0] == LowerChar(first);
      assert r[|r| - 1] == LowerChar(last);
    }
    StripOfTrimmed(r);
  }

  /** The index of the first occurrence of `c` in `s`, or `|s|` when absent. */
  function IndexOf(s: string, c: char): (i: nat)
    ensures i <= |s|
    ensures i < |s| ==> s[i] == c
    ensures c !in s[..i]
  {
    if s == [] then 0
    else if s[0] == c then 0
    else 1 + IndexOf(s[1..], c)
  }

  /** Python's `s.split(c, 1)` when `c in s`: the parts before and after the
      first `c`; `None` when `s` holds no `c`. */
  function SplitOnce(s: string, c: char): (r: Option<(string, string)>)
    ensures r.None? <==> c !in s
    ensures r.Some? ==> s == r.value.0 + [c] + r.value.1 && c !in r.value.0
  {
    var i := IndexOf(s, c);
    if i == |s| then
      assert s[..i] == s;
      None
    else
      assert s == s[..i] + [c] + s[i + 1..];
      Some((s[..i], s[i + 1..]))
  }

  /** Python's `sep.join(parts)`. */
  function Join(parts: seq<string>, sep: string): (r: string)
    ensures parts == [] ==> r == ""
    ensures |parts| == 1 ==> r == parts[0]
    ensures parts != [] ==> |parts[0]| <= |r| && r[..|parts[0]|] == parts[0]
    ensures parts != [] ==> |parts[|parts| - 1]| <= |r| && r[|r| - |parts[|parts| - 1]|..] == parts[|parts| - 1]
  {
    if parts == [] then ""
    else if |parts| == 1 then parts[0]
    else parts[0] + sep + Join(parts[1..], sep)
  }

  /** The head and tail of `x + y`, when `x` is not empty, are `x`'s head
      and `x`'s tail followed by `y`. */
  lemma HeadTailOfAppend(x: string, y: string)
    requires x != []
    ensures (x + y)[0] == x[0] && (x + y)[1..] == x[1..] + y
  {
  }

  /** Concatenation is associative. */
  lemma Associate(a: string, b: string, c: string)
    ensures a + (b + c) == a + b + c
  {
  }

  /** Concatenation regrouped: a piece made of three parts, placed after
      `a`, is those parts placed one after another. */
  lemma Regroup(a: string, b: string, c: string, d: string)
    ensures a + (b + c + d) == a + b + c + d
  {
  }

  /** Joining one more part appends the separator and that part. */
  lemma {:induction false} JoinAppend(parts: seq<string>, x: string, sep: string)
    requires parts != []
    ensures Join(parts + [x], sep) == Join(parts, sep) + sep + x
    decreases |parts|
  {
    var q := parts + [x];
    assert q[0] == parts[0] && q[1..] == parts[1..] + [x];
    if |parts| == 1 {
      assert q[1..] == [x];
    } else {
      JoinAppend(parts[1..], x, sep);
      Regroup(parts[0] + sep, Join(parts[1..], sep), sep, x);
    }
  }

  /** Three parts: each separator sits between two neighbours. */
  lemma JoinThree(parts: seq<string>, sep: string)
    requires |parts| == 3
    ensures Join(parts, sep) == parts[0] + sep + parts[1] + sep + parts[2]
  {
    assert parts == [parts[0], parts[1]] + [parts[2]];
    assert [parts[0]] + [parts[1]] == [parts[0], parts[1]];
    JoinAppend([parts[0]], parts[1], sep);
    JoinAppend([parts[0], parts[1]], parts[2], sep);
  }

  /** The index of the first line boundary in `s`, or `|s|` when there is none. */
  function LineEnd(s: string): (i: nat)
    ensures i <= |s|
    ensures i < |s| ==> IsLineBreak(s[i])
    ensures forall k :: 0 <= k < i ==> !IsLineBreak(s[k])
  {
    if s == [] || IsLineBreak(s[0]) then 0 else 1 + LineEnd(s[1..])
  }

  /** Python's `s.splitlines()`: the lines of `s` without their boundaries; a
      final boundary does not start an extra empty line. */
  function SplitLines(s: string): (lines: seq<string>)
    ensures forall j, k :: 0 <= j < |lines| && 0 <= k < |lines[j]| ==> !IsLineBreak(lines[j][k])
    ensures s == [] <==> lines == []
    decreases |s|
  {
    if s == [] then []
    else
      var i := LineEnd(s);
      var rest :=
        if i == |s| then []
        else if s[i] == '\r' && i + 1 < |s| && s[i + 1] == '\n' then s[i + 2..]
        else s[i + 1..];
      [s[..i]] + SplitLines(rest)
  }

  /** The first boundary of `a + "\n" + b`, when `a` has none, is the one
      after `a`. */
  lemma {:induction false} LineEndAfter(a: string, b: string)
    requires forall k :: 0 <= k < |a| ==> !IsLineBreak(a[k])
    ensures LineEnd(a + "\n" + b) == |a|
    decreases |a|
  {
    var s := a + "\n" + b;
    if a != [] {
      assert s[1..] == a[1..] + "\n" + b;
      LineEndAfter(a[1..], b);
    }
  }

  /** A line without boundaries, ended by "\n", is the first line; the text
      after it splits on its own. */
  lemma SplitLinesAfterBreak(a: string, b: string)
    requires forall k :: 0 <= k < |a| ==> !IsLineBreak(a[k])
    ensures SplitLines(a + "\n" + b) == [a] + SplitLines(b)
  {
    var s := a + "\n" + b;
    LineEndAfter(a, b);
    assert s[|a|] == '\n' && s[..|a|] == a && s[|a| + 1..] == b;
  }

  /** The first boundary of `a + sep + b`, when `a` has none and `sep`
      starts with one, is the one after `a`. */
  lemma {:induction false} LineEndBefore(a: string, sep: string, b: string)
    requires forall k :: 0 <= k < |a| ==> !IsLineBreak(a[k])
    requires sep != [] && IsLineBreak(sep[0])
    ensures LineEnd(a + sep + b) == |a|
    decreases |a|
  {
    var s := a + sep + b;
    if a != [] {
      assert s[1..] == a[1..] + sep + b;
      LineEndBefore(a[1..], sep, b);
    } else {
      assert s[0] == sep[0];
    }
  }

  /** A line without boundaries, ended by "\r\n", is the first line: the
      pair is one boundary, and the text after it splits on its own. */
  lemma SplitLinesAfterCrLf(a: string, b: string)
    requires forall k :: 0 <= k < |a| ==> !IsLineBreak(a[k])
    ensures SplitLines(a + "\r\n" + b) == [a] + SplitLines(b)
  {
    var s := a + "\r\n" + b;
    LineEndBefore(a, "\r\n", b);
    assert s[|a|] == '\r' && s[|a| + 1] == '\n' && s[..|a|] == a && s[|a| + 2..] == b;
  }

  /** A line without boundaries, ended by a boundary character that does not
      begin "\r\n", is the first line; the text after it splits on its own. */
  lemma SplitLinesAfterBoundary(a: string, c: char, b: string)
    requires forall k :: 0 <= k < |a| ==> !IsLineBreak(a[k])
    requires IsLineBreak(c) && !(c == '\r' && b != [] && b[0] == '\n')
    ensures SplitLines(a + [c] + b) == [a] + SplitLines(b)
  {
    var s := a + [c] + b;
    LineEndBefore(a, [c], b);
    assert s[|a|] == c && s[..|a|] == a && s[|a| + 1..] == b;
    assert b != [] ==> s[|a| + 1] == b[0];
  }

  /** Every character of `s` is a decimal digit. */
  predicate AllDigits(s: string) {
    forall k :: 0 <= k < |s| ==> '0' <= s[k] <= '9'
  }

  /** The number a string of decimal digits denotes, most significant
      digit first, as Python's `int(s)` reads it. */
  function DecimalValue(s: string): (v: nat)
    requires AllDigits(s)
    ensures s == [] ==> v == 0
  {
    if s == [] then 0 else 10 * DecimalValue(s[..|s| - 1]) + (s[|s| - 1] as int - '0' as int)
  }

  /** The decimal digits of `n`, as Python's `str(n)` writes a natural
      number: digits only, and no leading zero except in "0" itself. */
  function NatToString(n: nat): (r: string)
    ensures |r| > 0
    ensures AllDigits(r)
    ensures r[0] == '0' <==> n == 0
  {
    var d := ['0', '1', '2', '3', '4', '5', '6', '7', '8', '9'][n % 10];
    if n < 10 then [d] else NatToString(n / 10) + [d]
  }

  /** `str(n)` reads back as `n`. */
  lemma {:induction false} NatToStringValue(n: nat)
    ensures DecimalValue(NatToString(n)) == n
  {
    var r := NatToString(n);
    if n >= 10 {
      NatToStringValue(n / 10);
      assert r[..|r| - 1] == NatToString(n / 10);
    }
  }

  /** Python's `str(n)` for an integer: a minus sign exactly when `n` is
      negative, followed by the digits of its magnitude. */
  function IntToString(n: int): (r: string)
    ensures |r| > 0
    ensures r[0] == '-' <==> n < 0
    ensures n < 0 ==> |r| > 1 && AllDigits(r[1..]) && r[1] != '0'
    ensures n >= 0 ==> AllDigits(r)
    ensures n > 0 ==> r[0] != '0'
    ensures n == 0 ==> r == "0"
  {
    if n < 0 then "-" + NatToString(-n) else NatToString(n)
  }

  /** Dropping the first character of `[c] + s` leaves `s`. */
  lemma DropFirst(c: char, s: string)
    ensures ([c] + s)[1..] == s
  {
  }

  /** `str(n)` reads back as `n`, sign included. */
  lemma IntToStringValue(n: int)
    ensures n < 0 ==> DecimalValue(IntToString(n)[1..]) == -n
    ensures n >= 0 ==> DecimalValue(IntToString(n)) == n
  {
    if n < 0 {
      var m: nat := -n;
      var d := NatToString(m);
      DropFirst('-', d);
      NatToStringValue(m);
    } else {
      NatToStringValue(n);
    }
  }
}
