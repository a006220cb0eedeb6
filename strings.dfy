/**
 * The Python `str` primitives the core relies on, over `seq<char>`:
 * `in` (substring test), `str.replace`, `str.strip`, `str.split`, `re.sub(r"\s+", " ", s)`,
 * `str.lower` (ASCII letters only) and `int(s)` for decimal text.
 */
module Strings {
  import opened Wrappers

  /** `str.isspace`, which is also what `\s` matches in a `str` pattern and what `strip()` removes. */
  predicate IsSpace(c: char) {
    c in SpaceChars
  }

  const SpaceChars: set<char> := {
    ' ', '\t', '\n', '\U{b}', '\U{c}', '\r', '\U{1c}', '\U{1d}', '\U{1e}', '\U{1f}', '\U{85}', '\U{a0}',
    '\U{1680}', '\U{2000}', '\U{2001}', '\U{2002}', '\U{2003}', '\U{2004}', '\U{2005}', '\U{2006}',
    '\U{2007}', '\U{2008}', '\U{2009}', '\U{200a}', '\U{2028}', '\U{2029}', '\U{202f}', '\U{205f}', '\U{3000}'
  }

  predicate IsDigit(c: char) {
    '0' <= c <= '9'
  }

  function LowerChar(c: char): char {
    if 'A' <= c <= 'Z' then (c as int + 32) as char else c
  }

  /** `s.lower()`, restricted to the ASCII letters. */
  function Lower(s: string): (r: string)
    ensures |r| == |s|
    ensures forall i :: 0 <= i < |s| ==> r[i] == LowerChar(s[i])
  {
    seq(|s|, i requires 0 <= i < |s| => LowerChar(s[i]))
  }

  /** `needle` occurs in `hay` starting at index `i`. */
  predicate OccursAt(hay: string, needle: string, i: int) {
    0 <= i && i + |needle| <= |hay| && hay[i..i + |needle|] == needle
  }

  /** Python's `needle in hay` for strings (the empty string occurs everywhere). */
  predicate Contains(hay: string, needle: string) {
    exists i :: 0 <= i <= |hay| && OccursAt(hay, needle, i)
  }

  predicate StartsWith(s: string, prefix: string) {
    |prefix| <= |s| && s[..|prefix|] == prefix
  }

  lemma ContainsConcat(a: string, b: string, needle: string)
    requires Contains(a, needle) || Contains(b, needle)
    ensures Contains(a + b, needle)
  {
    if Contains(a, needle) {
      var i :| 0 <= i <= |a| && OccursAt(a, needle, i);
      assert (a + b)[i..i + |needle|] == a[i..i + |needle|];
      assert OccursAt(a + b, needle, i);
    } else {
      var i :| 0 <= i <= |b| && OccursAt(b, needle, i);
      assert (a + b)[|a| + i..|a| + i + |needle|] == b[i..i + |needle|];
      assert OccursAt(a + b, needle, |a| + i);
    }
  }

  lemma ContainsItself(s: string)
    ensures Contains(s, s)
  {
    assert OccursAt(s, s, 0);
  }

  /** Membership in a slice implies membership in the whole sequence. */
  lemma InSlice(s: string, lo: int, hi: int, c: char)
    requires 0 <= lo <= hi <= |s| && c in s[lo..hi]
    ensures c in s
  {
    var k :| 0 <= k < hi - lo && s[lo..hi][k] == c;
    assert s[lo + k] == c;
  }

  /** `s.replace(pat, rep)`: every non-overlapping occurrence of `pat`, leftmost first, is replaced. */
  function ReplaceAll(s: string, pat: string, rep: string): (r: string)
    requires pat != []
    ensures forall c :: c in r ==> c in s || c in rep
    decreases |s|
  {
    if |s| < |pat| then s
    else if s[..|pat|] == pat then
      var rest := ReplaceAll(s[|pat|..], pat, rep);
      assert forall c :: c in rest ==> c in s || c in rep by {
        forall c | c in s[|pat|..] { InSlice(s, |pat|, |s|, c); }
      }
      rep + rest
    else
      var rest := ReplaceAll(s[1..], pat, rep);
      assert forall c :: c in rest ==> c in s || c in rep by {
        forall c | c in s[1..] { InSlice(s, 1, |s|, c); }
      }
      [s[0]] + rest
  }

  /** An occurrence in the tail is an occurrence in the whole text. */
  lemma ContainsTail(s: string, pat: string)
    requires s != []
    ensures Contains(s[1..], pat) ==> Contains(s, pat)
  {
    if Contains(s[1..], pat) {
      var i :| 0 <= i <= |s[1..]| && OccursAt(s[1..], pat, i);
      assert s[1..][i..i + |pat|] == s[i + 1..i + 1 + |pat|];
      assert OccursAt(s, pat, i + 1);
    }
  }

  /** A pattern that does not occur leaves the text as it is. */
  lemma {:induction false} ReplaceAllNoMatch(s: string, pat: string, rep: string)
    requires pat != [] && !Contains(s, pat)
    ensures ReplaceAll(s, pat, rep) == s
    decreases |s|
  {
    if |s| >= |pat| {
      assert !OccursAt(s, pat, 0);
      ContainsTail(s, pat);
      ReplaceAllNoMatch(s[1..], pat, rep);
      assert s == [s[0]] + s[1..];
    }
  }

  /** Replacing one character by another works character by character and keeps the length. */
  lemma {:induction false} ReplaceCharPointwise(s: string, c: char, d: char)
    ensures |ReplaceAll(s, [c], [d])| == |s|
    ensures forall i :: 0 <= i < |s| ==> ReplaceAll(s, [c], [d])[i] == (if s[i] == c then d else s[i])
    decreases |s|
  {
    if |s| >= 1 {
      ReplaceCharPointwise(s[1..], c, d);
      var rest := ReplaceAll(s[1..], [c], [d]);
      assert s[..1] == [c] <==> s[0] == c;
      var r := ReplaceAll(s, [c], [d]);
      assert r == [if s[0] == c then d else s[0]] + rest;
      forall i | 0 < i < |s|
        ensures r[i] == (if s[i] == c then d else s[i])
      {
        assert r[i] == rest[i - 1] && s[1..][i - 1] == s[i];
      }
    }
  }

  /** The index of the first non-whitespace character at or after `i`, or `|s|`. */
  function SkipSpaces(s: string, i: nat): (k: nat)
    requires i <= |s|
    ensures i <= k <= |s|
    ensures k < |s| ==> !IsSpace(s[k])
    ensures i < |s| && IsSpace(s[i]) ==> k > i
    decreases |s| - i
  {
    if i < |s| && IsSpace(s[i]) then SkipSpaces(s, i + 1) else i
  }

  /** The end of `s[..j]` once its trailing whitespace is dropped. */
  function DropTrailingSpaces(s: string, j: nat): (k: nat)
    requires j <= |s|
    ensures k <= j
    ensures k > 0 ==> !IsSpace(s[k - 1])
  {
    if j > 0 && IsSpace(s[j - 1]) then DropTrailingSpaces(s, j - 1) else j
  }

  /** No whitespace at either end. */
  predicate Trimmed(s: string) {
    s == [] || (!IsSpace(s[0]) && !IsSpace(s[|s| - 1]))
  }

  /** Every whitespace character is a plain space and no two whitespace characters are adjacent. */
  predicate SingleSpaced(s: string) {
    && (forall i :: 0 <= i < |s| && IsSpace(s[i]) ==> s[i] == ' ')
    && (forall i :: 0 < i < |s| && IsSpace(s[i]) ==> !IsSpace(s[i - 1]))
  }

  /** What `re.sub(r"\s+", " ", s).strip()` leaves: single plain spaces between words, none outside. */
  predicate Tidy(s: string) {
    SingleSpaced(s) && Trimmed(s)
  }

  lemma {:induction false} SkipSpacesTo(s: string, i: nat, k: nat)
    requires i <= k <= |s|
    requires forall x :: i <= x < k ==> IsSpace(s[x])
    requires k < |s| ==> !IsSpace(s[k])
    ensures SkipSpaces(s, i) == k
    decreases k - i
  {
    if i < k {
      SkipSpacesTo(s, i + 1, k);
    }
  }

  lemma {:induction false} SkipSpacesSkipsSpaces(s: string, i: nat)
    requires i <= |s|
    ensures forall x :: i <= x < SkipSpaces(s, i) ==> IsSpace(s[x])
    decreases |s| - i
  {
    if i < |s| && IsSpace(s[i]) {
      SkipSpacesSkipsSpaces(s, i + 1);
    }
  }

  lemma {:induction false} DropTrailingTo(s: string, j: nat, k: nat)
    requires k <= j <= |s|
    requires forall x :: k <= x < j ==> IsSpace(s[x])
    requires k > 0 ==> !IsSpace(s[k - 1])
    ensures DropTrailingSpaces(s, j) == k
    decreases j - k
  {
    if k < j {
      DropTrailingTo(s, j - 1, k);
    }
  }

  lemma {:induction false} DropTrailingDropsSpaces(s: string, j: nat)
    requires j <= |s|
    ensures forall x :: DropTrailingSpaces(s, j) <= x < j ==> IsSpace(s[x])
  {
    if j > 0 && IsSpace(s[j - 1]) {
      DropTrailingDropsSpaces(s, j - 1);
    }
  }

  /** `s.strip()`. */
  function Strip(s: string): (r: string)
    ensures Trimmed(r)
    ensures forall c :: c in r ==> c in s
    ensures |r| <= |s|
  {
    var i := SkipSpaces(s, 0);
    var j := DropTrailingSpaces(s, |s|);
    if j <= i then []
    else
      assert forall c :: c in s[i..j] ==> c in s by {
        forall c | c in s[i..j] { InSlice(s, i, j, c); }
      }
      s[i..j]
  }

  /** The stripped text is a slice of `s` with only whitespace outside it. */
  lemma StripIsSlice(s: string)
    ensures exists i, j ::
      (&& 0 <= i <= j <= |s| && Strip(s) == s[i..j]
       && (forall x :: 0 <= x < i ==> IsSpace(s[x]))
       && (forall x :: j <= x < |s| ==> IsSpace(s[x])))
  {
    var i := SkipSpaces(s, 0);
    var j := DropTrailingSpaces(s, |s|);
    SkipSpacesSkipsSpaces(s, 0);
    DropTrailingDropsSpaces(s, |s|);
    if i < j {
      assert Strip(s) == s[i..j];
    } else {
      assert Strip(s) == s[0..0];
    }
  }

  /** Text between whitespace-only ends, itself without outer whitespace, is exactly what stripping gives. */
  lemma StripExact(pre: string, m: string, post: string)
    requires forall c :: c in pre ==> IsSpace(c)
    requires forall c :: c in post ==> IsSpace(c)
    requires Trimmed(m)
    ensures Strip(pre + m + post) == m
  {
    var s := pre + m + post;
    assert forall x :: 0 <= x < |pre| ==> s[x] == pre[x];
    assert forall x :: |pre| + |m| <= x < |s| ==> s[x] == post[x - |pre| - |m|];
    if m == [] {
      SkipSpacesTo(s, 0, |s|);
    } else {
      assert s[|pre|] == m[0] && s[|pre| + |m| - 1] == m[|m| - 1];
      SkipSpacesTo(s, 0, |pre|);
      DropTrailingTo(s, |s|, |pre| + |m|);
      assert s[|pre|..|pre| + |m|] == m;
    }
  }

  lemma SingleSpacedSlice(s: string, lo: int, hi: int)
    requires 0 <= lo <= hi <= |s| && SingleSpaced(s)
    ensures SingleSpaced(s[lo..hi])
  {
    var t := s[lo..hi];
    forall i | 0 < i < |t| && IsSpace(t[i])
      ensures !IsSpace(t[i - 1])
    {
      assert t[i] == s[lo + i] && t[i - 1] == s[lo + i - 1];
    }
  }

  /** Stripping a single-spaced string gives a tidy one. */
  lemma StripTidy(s: string)
    requires SingleSpaced(s)
    ensures Tidy(Strip(s))
  {
    var i := SkipSpaces(s, 0);
    var j := DropTrailingSpaces(s, |s|);
    if i < j {
      SingleSpacedSlice(s, i, j);
    }
  }

  /** Stripping is the identity on text with no outer whitespace. */
  lemma StripTrimmed(s: string)
    requires Trimmed(s)
    ensures Strip(s) == s
  {
    if s != [] {
      assert SkipSpaces(s, 0) == 0;
      assert DropTrailingSpaces(s, |s|) == |s|;
      assert s[0..|s|] == s;
    }
  }

  /** `re.sub(r"\s+", " ", s)`: every maximal run of whitespace becomes a single space. */
  function CollapseSpaces(s: string): (r: string)
    ensures r == [] <==> s == []
    ensures r != [] ==> (IsSpace(r[0]) <==> IsSpace(s[0]))
    ensures forall c :: c in r ==> c in s || c == ' '
    decreases |s|
  {
    if s == [] then []
    else if IsSpace(s[0]) then
      var t := s[SkipSpaces(s, 0)..];
      var rest := CollapseSpaces(t);
      assert forall c :: c in rest ==> c in s || c == ' ' by {
        forall c | c in t { InSlice(s, SkipSpaces(s, 0), |s|, c); }
      }
      " " + rest
    else
      var rest := CollapseSpaces(s[1..]);
      assert forall c :: c in rest ==> c in s || c == ' ' by {
        forall c | c in s[1..] { InSlice(s, 1, |s|, c); }
      }
      [s[0]] + rest
  }

  /** The non-whitespace characters of `s`, in order. */
  function Visible(s: string): string {
    if s == [] then [] else (if IsSpace(s[0]) then [] else [s[0]]) + Visible(s[1..])
  }

  lemma {:induction false} VisibleSkip(s: string, i: nat)
    requires i <= |s|
    ensures Visible(s[i..]) == Visible(s[SkipSpaces(s, i)..])
    decreases |s| - i
  {
    if i < |s| && IsSpace(s[i]) {
      assert s[i..][1..] == s[i + 1..];
      VisibleSkip(s, i + 1);
    }
  }

  /** Collapsing whitespace keeps every other character, in order. */
  lemma {:induction false} CollapseKeepsVisible(s: string)
    ensures Visible(CollapseSpaces(s)) == Visible(s)
    decreases |s|
  {
    if s != [] {
      if IsSpace(s[0]) {
        var k := SkipSpaces(s, 0);
        var rest := CollapseSpaces(s[k..]);
        CollapseKeepsVisible(s[k..]);
        VisibleSkip(s, 0);
        assert s[0..] == s;
        assert (" " + rest)[1..] == rest;
      } else {
        var rest := CollapseSpaces(s[1..]);
        CollapseKeepsVisible(s[1..]);
        assert ([s[0]] + rest)[1..] == rest;
      }
    }
  }

  lemma SingleSpacedCons(c: char, t: string)
    requires SingleSpaced(t)
    requires IsSpace(c) ==> c == ' ' && (t == [] || !IsSpace(t[0]))
    ensures SingleSpaced([c] + t)
  {
    var s := [c] + t;
    forall i | 0 < i < |s| && IsSpace(s[i])
      ensures !IsSpace(s[i - 1])
    {
      assert s[i] == t[i - 1];
      if i > 1 {
        assert s[i - 1] == t[i - 2];
      }
    }
  }

  /** Collapsing leaves only single plain spaces. */
  lemma {:induction false} CollapseIsSingleSpaced(s: string)
    ensures SingleSpaced(CollapseSpaces(s))
    decreases |s|
  {
    if s != [] {
      if IsSpace(s[0]) {
        var t := s[SkipSpaces(s, 0)..];
        CollapseIsSingleSpaced(t);
        SingleSpacedCons(' ', CollapseSpaces(t));
      } else {
        CollapseIsSingleSpaced(s[1..]);
        SingleSpacedCons(s[0], CollapseSpaces(s[1..]));
      }
    }
  }

  /** Collapsing is the identity on text that is already single-spaced. */
  lemma {:induction false} CollapseSingleSpaced(s: string)
    requires SingleSpaced(s)
    ensures CollapseSpaces(s) == s
    decreases |s|
  {
    if s != [] {
      SingleSpacedSlice(s, 1, |s|);
      CollapseSingleSpaced(s[1..]);
      if IsSpace(s[0]) {
        assert |s| > 1 ==> !IsSpace(s[1]);
        assert SkipSpaces(s, 1) == 1;
        assert SkipSpaces(s, 0) == 1;
      }
    }
  }

  /** `s.split(sep)` where `seps` holds the separator characters: the pieces between them, empty pieces kept. */
  function Split(s: string, seps: set<char>): (parts: seq<string>)
    ensures |parts| >= 1
    ensures forall i, c :: 0 <= i < |parts| && c in parts[i] ==> c !in seps && c in s
    decreases |s|
  {
    if s == [] then [[]]
    else
      var rest := Split(s[1..], seps);
      assert forall i, c :: 0 <= i < |rest| && c in rest[i] ==> c in s by {
        forall i, c | 0 <= i < |rest| && c in rest[i] ensures c in s {
          assert c in s[1..];
          InSlice(s, 1, |s|, c);
        }
      }
      if s[0] in seps then [[]] + rest else [[s[0]] + rest[0]] + rest[1..]
  }

  /** `sep.join(parts)`. */
  function Join(parts: seq<string>, sep: char): string {
    if parts == [] then []
    else if |parts| == 1 then parts[0]
    else parts[0] + [sep] + Join(parts[1..], sep)
  }

  lemma {:induction false} SplitNoSeparator(a: string, seps: set<char>)
    requires forall c :: c in a ==> c !in seps
    ensures Split(a, seps) == [a]
    decreases |a|
  {
    if a != [] {
      assert forall c :: c in a[1..] ==> c !in seps by {
        forall c | c in a[1..] { InSlice(a, 1, |a|, c); }
      }
      SplitNoSeparator(a[1..], seps);
      assert [a[0]] + a[1..] == a;
    }
  }

  lemma {:induction false} SplitAtSeparator(a: string, sep: char, b: string, seps: set<char>)
    requires sep in seps && forall c :: c in a ==> c !in seps
    ensures Split(a + [sep] + b, seps) == [a] + Split(b, seps)
    decreases |a|
  {
    var s := a + [sep] + b;
    if a == [] {
      assert s[1..] == b;
    } else {
      assert s[1..] == a[1..] + [sep] + b;
      assert forall c :: c in a[1..] ==> c !in seps by {
        forall c | c in a[1..] { InSlice(a, 1, |a|, c); }
      }
      SplitAtSeparator(a[1..], sep, b, seps);
      assert [a[0]] + a[1..] == a;
    }
  }

  /** Splitting a join on the same separator gives back the pieces, provided no piece holds a separator. */
  lemma {:induction false} SplitJoin(parts: seq<string>, sep: char, seps: set<char>)
    requires sep in seps && |parts| >= 1
    requires forall i, c :: 0 <= i < |parts| && c in parts[i] ==> c !in seps
    ensures Split(Join(parts, sep), seps) == parts
    decreases |parts|
  {
    if |parts| == 1 {
      SplitNoSeparator(parts[0], seps);
    } else {
      SplitJoin(parts[1..], sep, seps);
      SplitAtSeparator(parts[0], sep, Join(parts[1..], sep), seps);
    }
  }

  /** `[p for p in parts if p]`. */
  function NonEmpty(parts: seq<string>): (r: seq<string>)
    ensures |r| <= |parts|
    ensures forall i :: 0 <= i < |r| ==> r[i] != [] && r[i] in parts
  {
    if parts == [] then []
    else if parts[0] == [] then NonEmpty(parts[1..])
    else [parts[0]] + NonEmpty(parts[1..])
  }

  /** `[p.strip() for p in parts if p.strip()]`. */
  function StrippedNonEmpty(parts: seq<string>): (r: seq<string>)
    ensures |r| <= |parts|
    ensures forall i :: 0 <= i < |r| ==> r[i] != [] && Trimmed(r[i])
  {
    if parts == [] then []
    else if Strip(parts[0]) == [] then StrippedNonEmpty(parts[1..])
    else [Strip(parts[0])] + StrippedNonEmpty(parts[1..])
  }

  /** `[p.strip() for p in parts]`. */
  function StripEach(parts: seq<string>): (r: seq<string>)
    ensures |r| == |parts|
    ensures forall k :: 0 <= k < |parts| ==> r[k] == Strip(parts[k])
  {
    seq(|parts|, k requires 0 <= k < |parts| => Strip(parts[k]))
  }

  /** Every non-empty part survives the filter. */
  lemma {:induction false} NonEmptyKeeps(parts: seq<string>, p: string)
    requires p in parts && p != []
    ensures p in NonEmpty(parts)
    decreases |parts|
  {
    if parts[0] != p {
      NonEmptyKeeps(parts[1..], p);
    }
  }

  /** The stripped non-empty parts are the non-empty ones of the stripped parts, in their order. */
  lemma {:induction false} StrippedNonEmptyFilter(parts: seq<string>)
    ensures StrippedNonEmpty(parts) == NonEmpty(StripEach(parts))
    decreases |parts|
  {
    if parts != [] {
      StrippedNonEmptyFilter(parts[1..]);
      assert StripEach(parts)[1..] == StripEach(parts[1..]);
    }
  }

  // ---- int(s) for decimal text ----

  function DigitValue(c: char): nat
    requires IsDigit(c)
  {
    c as int - '0' as int
  }

  function DigitChar(d: nat): (c: char)
    requires d < 10
    ensures IsDigit(c) && DigitValue(c) == d
  {
    ('0' as int + d) as char
  }

  /** Digits with single `_` separators between them, as `int()` accepts after the sign. */
  predicate IsDigitRun(d: string) {
    && |d| > 0 && IsDigit(d[0]) && IsDigit(d[|d| - 1])
    && (forall i :: 0 <= i < |d| ==> IsDigit(d[i]) || d[i] == '_')
    && (forall i :: 0 < i < |d| && d[i] == '_' ==> d[i - 1] != '_')
  }

  /** The number the digits of `d` spell, `_` separators skipped. */
  function DigitsValue(d: string): nat
    requires forall i :: 0 <= i < |d| ==> IsDigit(d[i]) || d[i] == '_'
  {
    if d == [] then 0
    else if d[|d| - 1] == '_' then DigitsValue(d[..|d| - 1])
    else 10 * DigitsValue(d[..|d| - 1]) + DigitValue(d[|d| - 1])
  }

  /** Python `int(s)` on decimal text; None where `int` raises ValueError. */
  function ParseInt(s: string): Option<int> {
    ParseSigned(Strip(s))
  }

  /** An optional sign followed by a digit run. */
  function ParseSigned(t: string): Option<int> {
    if t != [] && (t[0] == '-' || t[0] == '+') then
      if IsDigitRun(t[1..]) then
        var v: int := DigitsValue(t[1..]);
        Some(if t[0] == '-' then -v else v)
      else None
    else if IsDigitRun(t) then Some(DigitsValue(t))
    else None
  }

  /** `str(n)` for a natural number. */
  function NatToString(n: nat): (s: string)
    ensures |s| > 0 && forall i :: 0 <= i < |s| ==> IsDigit(s[i])
  {
    if n < 10 then [DigitChar(n)] else NatToString(n / 10) + [DigitChar(n % 10)]
  }

  lemma {:induction false} NatToStringValue(n: nat)
    ensures DigitsValue(NatToString(n)) == n
  {
    if n >= 10 {
      var s := NatToString(n);
      assert s[..|s| - 1] == NatToString(n / 10);
      NatToStringValue(n / 10);
    }
  }

  lemma NatToStringIsDigitRun(n: nat)
    ensures IsDigitRun(NatToString(n)) && Trimmed(NatToString(n))
  {
    var s := NatToString(n);
    assert IsDigit(s[0]) && IsDigit(s[|s| - 1]);
    assert forall i :: 0 <= i < |s| ==> s[i] != '_';
  }

  /** `int(str(n)) == n`. */
  lemma ParseIntNatToString(n: nat)
    ensures ParseInt(NatToString(n)) == Some(n)
  {
    var s := NatToString(n);
    NatToStringIsDigitRun(n);
    StripTrimmed(s);
    assert Strip(s) == s;
    assert s[0] != '-' && s[0] != '+';
    NatToStringValue(n);
    ParseSignedDigitRun(s);
  }

  lemma ParseSignedDigitRun(t: string)
    requires IsDigitRun(t)
    ensures ParseSigned(t) == Some(DigitsValue(t))
  {
    assert IsDigit(t[0]);
  }
}
