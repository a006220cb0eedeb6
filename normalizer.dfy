/**
 * `YouTubeService.normalize_text`, `tokens` and `sanitize_filename`: the text rewrites that
 * put a catalogue title and a YouTube title into a comparable form.
 */
module Normalizer {
  import opened Strings

  // ---- separators ----

  /** En dash, em dash, hyphen and colon: the characters the normaliser turns into spaces. */
  predicate IsSeparator(c: char) {
    c == '\U{2013}' || c == '\U{2014}' || c == '-' || c == ':'
  }

  predicate NoSeparators(s: string) {
    forall c :: c in s ==> !IsSeparator(c)
  }

  /** Replacing a one-character pattern by text without that character removes it everywhere. */
  lemma {:induction false} ReplaceRemovesChar(s: string, c: char, rep: string)
    requires c !in rep
    ensures c !in ReplaceAll(s, [c], rep)
    decreases |s|
  {
    if |s| >= 1 {
      if s[..1] == [c] {
        ReplaceRemovesChar(s[1..], c, rep);
      } else {
        ReplaceRemovesChar(s[1..], c, rep);
        assert s[0] != c;
      }
    }
  }

  /** `s.replace("–", " ").replace("—", " ").replace("-", " ").replace(":", " ")`. */
  function UnifySeparators(s: string): (r: string)
    ensures NoSeparators(r)
    ensures forall c :: c in r ==> c in s || c == ' '
  {
    var a := ReplaceAll(s, "\U{2013}", " ");
    var b := ReplaceAll(a, "\U{2014}", " ");
    var c := ReplaceAll(b, "-", " ");
    var d := ReplaceAll(c, ":", " ");
    ReplaceRemovesChar(s, '\U{2013}', " ");
    ReplaceRemovesChar(a, '\U{2014}', " ");
    ReplaceRemovesChar(b, '-', " ");
    ReplaceRemovesChar(c, ':', " ");
    d
  }

  /** Every separator becomes a space; every other character stays where it was. */
  lemma UnifySeparatorsPointwise(s: string)
    ensures |UnifySeparators(s)| == |s|
    ensures forall i :: 0 <= i < |s| ==> UnifySeparators(s)[i] == (if IsSeparator(s[i]) then ' ' else s[i])
  {
    var a := ReplaceAll(s, "\U{2013}", " ");
    ReplaceCharPointwise(s, '\U{2013}', ' ');
    var b := ReplaceAll(a, "\U{2014}", " ");
    ReplaceCharPointwise(a, '\U{2014}', ' ');
    var c := ReplaceAll(b, "-", " ");
    ReplaceCharPointwise(b, '-', ' ');
    ReplaceCharPointwise(c, ':', ' ');
  }

  // ---- meta tokens ----

  /** The phrases removed by plain replacement, in the order they are applied. */
  const MetaTokens: seq<string> := [
    "official audio", "official video", "official music video", "lyrics", "lyric video",
    "audio", "mv", "hd", "4k", "official", "music video"
  ]

  /** Replaces every occurrence of each of `toks` by a space, the first token first. */
  function RemoveTokens(s: string, toks: seq<string>): (r: string)
    requires forall i :: 0 <= i < |toks| ==> toks[i] != []
    ensures forall c :: c in r ==> c in s || c == ' '
    decreases |toks|
  {
    if toks == [] then s
    else ReplaceAll(RemoveTokens(s, toks[..|toks| - 1]), toks[|toks| - 1], " ")
  }

  /** Tokens that do not occur leave the text as it is. */
  lemma {:induction false} RemoveTokensNoMatch(s: string, toks: seq<string>)
    requires forall i :: 0 <= i < |toks| ==> toks[i] != [] && !Contains(s, toks[i])
    ensures RemoveTokens(s, toks) == s
    decreases |toks|
  {
    if toks != [] {
      RemoveTokensNoMatch(s, toks[..|toks| - 1]);
      ReplaceAllNoMatch(s, toks[|toks| - 1], " ");
    }
  }

  lemma {:induction false} RemoveTokensEmpty(toks: seq<string>)
    requires forall i :: 0 <= i < |toks| ==> toks[i] != []
    ensures RemoveTokens([], toks) == []
    decreases |toks|
  {
    if toks != [] {
      RemoveTokensEmpty(toks[..|toks| - 1]);
    }
  }

  // ---- bracketed meta phrases ----

  /** The alternatives of the bracketed-meta patterns `\((official|mv|...)[^)]*\)` and `\[...\]`. */
  const BracketWords: seq<string> := ["official", "mv", "music video", "lyrics", "lyric video", "audio", "hd", "4k"]

  predicate StartsWithAny(s: string, words: seq<string>) {
    exists k :: 0 <= k < |words| && StartsWith(s, words[k])
  }

  /** Index of the first `c` in `s`. */
  function IndexOf(s: string, c: char): (j: nat)
    requires c in s
    ensures j < |s| && s[j] == c && c !in s[..j]
  {
    if s[0] == c then 0 else 1 + IndexOf(s[1..], c)
  }

  /**
   * `re.sub(open + "(words)[^" + close + "]*" + close, " ", s)`: scanning left to right, an `open`
   * followed by one of the bracket words is removed, up to and including the next `close`,
   * and replaced by one space. Without a later `close` nothing is removed.
   */
  function RemoveBracketed(s: string, open: char, close: char): (r: string)
    ensures forall c :: c in r ==> c in s || c == ' '
    decreases |s|
  {
    if s == [] then []
    else if s[0] == open && StartsWithAny(s[1..], BracketWords) && close in s[1..] then
      var j := 1 + IndexOf(s[1..], close);
      var rest := RemoveBracketed(s[j + 1..], open, close);
      assert forall c :: c in rest ==> c in s || c == ' ' by {
        forall c | c in s[j + 1..] { InSlice(s, j + 1, |s|, c); }
      }
      " " + rest
    else
      var rest := RemoveBracketed(s[1..], open, close);
      assert forall c :: c in rest ==> c in s || c == ' ' by {
        forall c | c in s[1..] { InSlice(s, 1, |s|, c); }
      }
      [s[0]] + rest
  }

  /** Where no `open` starts a match, nothing is removed. */
  lemma {:induction false} RemoveBracketedNoMatch(s: string, open: char, close: char)
    requires forall i :: 0 <= i < |s| && s[i] == open ==> !StartsWithAny(s[i + 1..], BracketWords) || close !in s[i + 1..]
    ensures RemoveBracketed(s, open, close) == s
    decreases |s|
  {
    if s != [] {
      var t := s[1..];
      forall i | 0 <= i < |t| && t[i] == open
        ensures !StartsWithAny(t[i + 1..], BracketWords) || close !in t[i + 1..]
      {
        assert t[i] == s[i + 1] && t[i + 1..] == s[i + 2..];
      }
      RemoveBracketedNoMatch(t, open, close);
      assert s == [s[0]] + t;
    }
  }

  // ---- feat ----

  /**
   * What `\w` matches: ASCII letters, digits and `_`, and (approximately) every non-ASCII
   * character that is not whitespace.
   */
  predicate IsWordChar(c: char) {
    ('a' <= c <= 'z') || ('A' <= c <= 'Z') || ('0' <= c <= '9') || c == '_'
    || (c as int >= 128 && !IsSpace(c))
  }

  predicate WordAt(s: string, i: int) {
    0 <= i < |s| && IsWordChar(s[i])
  }

  /** `\b` at position `i`: a word character on exactly one side. */
  predicate BoundaryAt(s: string, i: int) {
    WordAt(s, i - 1) != WordAt(s, i)
  }

  /**
   * Length of the match of `\b(feat\.|feat|ft\.|ft)\b` at `i` (0 when none); the alternatives
   * are tried in order, so `feat.` wins only when a word character follows the dot.
   */
  function FeatMatchLength(s: string, i: nat): (m: nat)
    requires i <= |s|
    ensures m == 0 || m == 2 || m == 3 || m == 4 || m == 5
    ensures m > 0 ==> i + m <= |s| && BoundaryAt(s, i) && BoundaryAt(s, i + m)
    ensures m == 5 ==> OccursAt(s, "feat.", i)
    ensures m == 4 ==> OccursAt(s, "feat", i)
    ensures m == 3 ==> OccursAt(s, "ft.", i)
    ensures m == 2 ==> OccursAt(s, "ft", i)
    // no match is missed: any of the four forms between word boundaries gives a match
    ensures (&& BoundaryAt(s, i)
             && (|| (OccursAt(s, "feat.", i) && BoundaryAt(s, i + 5))
                 || (OccursAt(s, "feat", i) && BoundaryAt(s, i + 4))
                 || (OccursAt(s, "ft.", i) && BoundaryAt(s, i + 3))
                 || (OccursAt(s, "ft", i) && BoundaryAt(s, i + 2)))) ==> m > 0
  {
    if !BoundaryAt(s, i) then 0
    else if OccursAt(s, "feat.", i) && BoundaryAt(s, i + 5) then 5
    else if OccursAt(s, "feat", i) && BoundaryAt(s, i + 4) then 4
    else if OccursAt(s, "ft.", i) && BoundaryAt(s, i + 3) then 3
    else if OccursAt(s, "ft", i) && BoundaryAt(s, i + 2) then 2
    else 0
  }

  /** `re.sub(r"\b(feat\.|feat|ft\.|ft)\b", "feat", s[i..])`, the boundaries judged on all of `s`. */
  function CanonicalFeatFrom(s: string, i: nat): (r: string)
    requires i <= |s|
    ensures forall c :: c in r ==> c in s || c in "feat"
    decreases |s| - i
  {
    if i == |s| then []
    else
      var m := FeatMatchLength(s, i);
      if m > 0 then "feat" + CanonicalFeatFrom(s, i + m)
      else [s[i]] + CanonicalFeatFrom(s, i + 1)
  }

  lemma {:induction false} CanonicalFeatFromKeeps(s: string, i: nat)
    requires i <= |s|
    requires forall k :: i <= k <= |s| ==> FeatMatchLength(s, k) == 0 || FeatMatchLength(s, k) == 4
    ensures CanonicalFeatFrom(s, i) == s[i..]
    decreases |s| - i
  {
    if i < |s| {
      var m := FeatMatchLength(s, i);
      CanonicalFeatFromKeeps(s, i + m + (if m == 0 then 1 else 0));
      if m == 4 {
        assert s[i..] == s[i..i + 4] + s[i + 4..];
      } else {
        assert s[i..] == [s[i]] + s[i + 1..];
      }
    }
  }

  /** Text whose only `feat`-like tokens are already the plain word `feat` is left as it is. */
  lemma CanonicalFeatKeeps(s: string)
    requires forall k :: 0 <= k <= |s| ==> FeatMatchLength(s, k) == 0 || FeatMatchLength(s, k) == 4
    ensures CanonicalFeat(s) == s
  {
    CanonicalFeatFromKeeps(s, 0);
  }

  function CanonicalFeat(s: string): (r: string)
    ensures forall c :: c in r ==> c in s || c in "feat"
  {
    CanonicalFeatFrom(s, 0)
  }

  // ---- the pipeline ----

  /** The text after lower-casing, separator unification and meta-token removal. */
  function WithoutMeta(s: string): (r: string)
    ensures NoSeparators(r)
  {
    RemoveTokens(UnifySeparators(Lower(s)), MetaTokens)
  }

  /** Lower-case text without separators or meta tokens passes through unchanged. */
  lemma WithoutMetaPlain(s: string)
    requires Lower(s) == s && NoSeparators(s)
    requires forall i :: 0 <= i < |MetaTokens| ==> !Contains(s, MetaTokens[i])
    ensures WithoutMeta(s) == s
  {
    UnifySeparatorsPointwise(s);
    assert UnifySeparators(s) == s;
    RemoveTokensNoMatch(s, MetaTokens);
  }

  /** `normalize_text(s)`. */
  function Normalize(s: string): string {
    var a := WithoutMeta(s);
    var b := RemoveBracketed(RemoveBracketed(a, '(', ')'), '[', ']');
    Strip(CollapseSpaces(CanonicalFeat(b)))
  }

  /**
   * `normalize_text` as written: the meta tokens are removed by a loop that rebinds the text.
   */
  method NormalizeText(s: string) returns (r: string)
    ensures r == Normalize(s)
  {
    var t := UnifySeparators(Lower(s));
    var u := t;
    var i := 0;
    while i < |MetaTokens|
      invariant 0 <= i <= |MetaTokens|
      invariant u == RemoveTokens(t, MetaTokens[..i])
    {
      assert MetaTokens[..i + 1][..i] == MetaTokens[..i];
      u := ReplaceAll(u, MetaTokens[i], " ");
      i := i + 1;
    }
    assert MetaTokens[..i] == MetaTokens;
    u := RemoveBracketed(u, '(', ')');
    u := RemoveBracketed(u, '[', ']');
    u := CanonicalFeat(u);
    r := Strip(CollapseSpaces(u));
  }

  /** A rewrite that only adds spaces and the letters of `feat` keeps the text free of separators. */
  lemma KeepsNoSeparators(x: string, y: string)
    requires NoSeparators(x)
    requires forall c :: c in y ==> c in x || c == ' ' || c in "feat"
    ensures NoSeparators(y)
  {
  }

  /**
   * The normalised text has no whitespace at either end, only single plain spaces inside,
   * and none of the separator characters.
   */
  lemma NormalizeOutput(s: string)
    ensures Tidy(Normalize(s)) && NoSeparators(Normalize(s))
  {
    var a := WithoutMeta(s);
    var b1 := RemoveBracketed(a, '(', ')');
    KeepsNoSeparators(a, b1);
    var b2 := RemoveBracketed(b1, '[', ']');
    KeepsNoSeparators(b1, b2);
    var c := CanonicalFeat(b2);
    KeepsNoSeparators(b2, c);
    var d := CollapseSpaces(c);
    KeepsNoSeparators(c, d);
    CollapseIsSingleSpaced(c);
    StripTidy(d);
    KeepsNoSeparators(d, Strip(d));
    assert Normalize(s) == Strip(d);
  }

  /** The empty text normalises to the empty text. */
  lemma NormalizeEmpty()
    ensures Normalize([]) == []
  {
    RemoveTokensEmpty(MetaTokens);
  }

  // ---- tokens ----

  /** `tokens(s)`: the whitespace-separated words of `normalize_text(s)`. */
  function Tokens(s: string): seq<string> {
    NonEmpty(Split(Normalize(s), SpaceChars))
  }

  lemma {:induction false} NonEmptyKeepsAll(parts: seq<string>)
    requires forall i :: 0 <= i < |parts| ==> parts[i] != []
    ensures NonEmpty(parts) == parts
    decreases |parts|
  {
    if parts != [] {
      NonEmptyKeepsAll(parts[1..]);
    }
  }

  /** A text with no outer whitespace and no adjacent whitespace splits into non-empty pieces. */
  lemma {:induction false} SplitTidyPieces(t: string)
    requires t != [] && Trimmed(t) && SingleSpaced(t)
    ensures forall i :: 0 <= i < |Split(t, SpaceChars)| ==> Split(t, SpaceChars)[i] != []
    decreases |t|
  {
    if |t| > 1 {
      if IsSpace(t[1]) {
        assert |t| > 2 && !IsSpace(t[2]);
        SingleSpacedSlice(t, 2, |t|);
        SplitTidyPieces(t[2..]);
        assert t[1..][1..] == t[2..];
        var rest := Split(t[1..], SpaceChars);
        assert rest == [[]] + Split(t[2..], SpaceChars);
        assert rest[0] == [] && rest[1..] == Split(t[2..], SpaceChars);
        assert Split(t, SpaceChars) == [[t[0]] + rest[0]] + rest[1..];
      } else {
        SingleSpacedSlice(t, 1, |t|);
        SplitTidyPieces(t[1..]);
      }
    }
  }

  /** Joining the pieces of a split on `sep` gives the text back when `sep` is its only separator. */
  lemma {:induction false} JoinSplit(t: string, seps: set<char>, sep: char)
    requires forall i :: 0 <= i < |t| && t[i] in seps ==> t[i] == sep
    ensures Join(Split(t, seps), sep) == t
    decreases |t|
  {
    if t != [] {
      var rest := Split(t[1..], seps);
      JoinSplit(t[1..], seps, sep);
      if t[0] !in seps && |rest| > 1 {
        var parts := [[t[0]] + rest[0]] + rest[1..];
        assert parts[1..] == rest[1..];
        assert Join(rest, sep) == rest[0] + [sep] + Join(rest[1..], sep);
      }
    }
  }

  /** The non-empty pieces of a tidy text are free of whitespace and join back to the text. */
  lemma TidyPieces(t: string)
    requires Tidy(t)
    ensures forall i, c :: 0 <= i < |NonEmpty(Split(t, SpaceChars))| && c in NonEmpty(Split(t, SpaceChars))[i] ==> !IsSpace(c)
    ensures forall i :: 0 <= i < |NonEmpty(Split(t, SpaceChars))| ==> NonEmpty(Split(t, SpaceChars))[i] != []
    ensures Join(NonEmpty(Split(t, SpaceChars)), ' ') == t
  {
    var ps := Split(t, SpaceChars);
    if t != [] {
      SplitTidyPieces(t);
      NonEmptyKeepsAll(ps);
    }
    JoinSplit(t, SpaceChars, ' ');
    SplitAvoids(t, SpaceChars);
    NonEmptyAvoids(ps, SpaceChars);
  }

  lemma SplitAvoids(t: string, seps: set<char>)
    ensures forall i, c :: 0 <= i < |Split(t, seps)| && c in Split(t, seps)[i] ==> c !in seps
  {
  }

  /** Dropping empty pieces keeps every piece free of the characters the pieces avoided. */
  lemma NonEmptyAvoids(ps: seq<string>, seps: set<char>)
    requires forall i, c :: 0 <= i < |ps| && c in ps[i] ==> c !in seps
    ensures forall i, c :: 0 <= i < |NonEmpty(ps)| && c in NonEmpty(ps)[i] ==> c !in seps
  {
    var ts := NonEmpty(ps);
    forall i, c | 0 <= i < |ts| && c in ts[i]
      ensures c !in seps
    {
      var j :| 0 <= j < |ps| && ps[j] == ts[i];
    }
  }

  /** The tokens are non-empty and free of whitespace, and joined by single spaces they give the normalised text. */
  lemma TokensJoin(s: string)
    ensures forall i, c :: 0 <= i < |Tokens(s)| && c in Tokens(s)[i] ==> !IsSpace(c)
    ensures forall i :: 0 <= i < |Tokens(s)| ==> Tokens(s)[i] != []
    ensures Join(Tokens(s), ' ') == Normalize(s)
  {
    NormalizeOutput(s);
    TidyPieces(Normalize(s));
  }

  // ---- file names ----

  /** The characters `sanitize_filename` deletes. */
  predicate IsForbiddenInName(c: char) {
    c == '<' || c == '>' || c == ':' || c == '"' || c == '/' || c == '\\' || c == '|' || c == '?' || c == '*'
  }

  function RemoveForbidden(s: string): (r: string)
    ensures forall c :: c in r ==> c in s && !IsForbiddenInName(c)
  {
    if s == [] then []
    else
      var rest := RemoveForbidden(s[1..]);
      assert forall c :: c in rest ==> c in s by {
        forall c | c in rest { InSlice(s, 1, |s|, c); }
      }
      if IsForbiddenInName(s[0]) then rest else [s[0]] + rest
  }

  /** The filter works piece by piece, so the kept characters keep their order. */
  lemma {:induction false} RemoveForbiddenAppend(a: string, b: string)
    ensures RemoveForbidden(a + b) == RemoveForbidden(a) + RemoveForbidden(b)
    decreases |a|
  {
    if a == [] {
      assert a + b == b;
    } else {
      assert (a + b)[0] == a[0] && (a + b)[1..] == a[1..] + b;
      RemoveForbiddenAppend(a[1..], b);
    }
  }

  /** Every character that is not forbidden is kept. */
  lemma {:induction false} RemoveForbiddenKeeps(s: string, c: char)
    requires c in s && !IsForbiddenInName(c)
    ensures c in RemoveForbidden(s)
    decreases |s|
  {
    if s[0] != c {
      RemoveForbiddenKeeps(s[1..], c);
    }
  }

  lemma {:induction false} RemoveForbiddenNone(s: string)
    requires forall c :: c in s ==> !IsForbiddenInName(c)
    ensures RemoveForbidden(s) == s
    decreases |s|
  {
    if s != [] {
      assert forall c :: c in s[1..] ==> !IsForbiddenInName(c) by {
        forall c | c in s[1..] { InSlice(s, 1, |s|, c); }
      }
      RemoveForbiddenNone(s[1..]);
    }
  }

  /**
   * `sanitize_filename(name)`: the forbidden characters deleted, whitespace runs collapsed to
   * one space, outer whitespace stripped.
   */
  function SanitizeFilename(name: string): (r: string)
    ensures Tidy(r)
    ensures forall c :: c in r ==> !IsForbiddenInName(c)
  {
    var a := RemoveForbidden(name);
    var b := CollapseSpaces(a);
    CollapseIsSingleSpaced(a);
    StripTidy(b);
    Strip(b)
  }

  /** Sanitising a sanitised name changes nothing. */
  lemma SanitizeIdempotent(name: string)
    ensures SanitizeFilename(SanitizeFilename(name)) == SanitizeFilename(name)
  {
    var r := SanitizeFilename(name);
    RemoveForbiddenNone(r);
    CollapseSingleSpaced(r);
    StripTrimmed(r);
  }
}
