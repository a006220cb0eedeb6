/**
 * The match-scoring engine of `YouTubeService`: similarity of normalised titles and artists,
 * duration agreement, a prior from the provider's ranking, a live/cover/remix adjustment,
 * and their fixed-weight blend.
 */
module Scoring {
  import opened Wrappers
  import opened Strings
  import opened Normalizer

  // ---- primitives the scorer takes from outside ----

  /** A value in [0, 1], the range of `SequenceMatcher.ratio`. */
  type Ratio = r: real | 0.0 <= r <= 1.0

  /** The properties of `math.exp` the scorer relies on. */
  ghost predicate ExpLike(f: real -> real) {
    && f(0.0) == 1.0
    && (forall x :: x <= 0.0 ==> 0.0 < f(x) <= 1.0)
    && (forall x, y :: x <= y ==> f(x) <= f(y))
  }

  type Exp = f: real -> real | ExpLike(f) witness (x: real) => 1.0

  /**
   * `SequenceMatcher(None, a, b).ratio()`, `math.exp`, and `DEFAULT_RANK_STRENGTH`
   * (read from the environment variable YTMUSIC_RANK_STRENGTH, "6.0" when unset).
   */
  datatype Primitives = Primitives(ratio: (string, string) -> Ratio, exp: Exp, defaultRankStrength: real)

  const ConfidenceThreshold: real := 0.65

  /** `max(0.0, min(x, 1.0))`. */
  function Clamp(x: real): (r: real)
    ensures 0.0 <= r <= 1.0
    ensures 0.0 <= x <= 1.0 ==> r == x
    ensures x < 0.0 ==> r == 0.0
    ensures x > 1.0 ==> r == 1.0
  {
    if x < 0.0 then 0.0 else if x > 1.0 then 1.0 else x
  }

  /** The larger of `a` and `b`. */
  function Max(a: real, b: real): (r: real)
    ensures r >= a && r >= b
    ensures r == a || r == b
  {
    if a >= b then a else b
  }

  /** `calculate_similarity(a, b)`: the ratio of the lower-cased, stripped texts. */
  function Similarity(p: Primitives, a: string, b: string): (r: real)
    ensures 0.0 <= r <= 1.0
  {
    p.ratio(Strip(Lower(a)), Strip(Lower(b)))
  }

  // ---- title ----

  /** The title tokens that count for containment: two characters or more, and not `feat`. */
  function ContentTokens(ts: seq<string>): (r: seq<string>)
    ensures |r| <= |ts|
    ensures forall i :: 0 <= i < |r| ==> |r[i]| >= 2 && r[i] != "feat" && r[i] in ts
  {
    if ts == [] then []
    else if |ts[0]| >= 2 && ts[0] != "feat" then [ts[0]] + ContentTokens(ts[1..])
    else ContentTokens(ts[1..])
  }

  /** No content token is dropped: every token of two characters or more other than `feat` is kept. */
  lemma {:induction false} ContentTokensKeep(ts: seq<string>, t: string)
    requires t in ts && |t| >= 2 && t != "feat"
    ensures t in ContentTokens(ts)
  {
    if ts[0] != t {
      ContentTokensKeep(ts[1..], t);
    }
  }

  /** How many of `ts` occur in `hay`. */
  function Hits(ts: seq<string>, hay: string): (n: nat)
    ensures n <= |ts|
  {
    if ts == [] then 0 else (if Contains(hay, ts[0]) then 1 else 0) + Hits(ts[1..], hay)
  }

  /** Every token is found exactly when all of them are counted; none is found exactly when the count is 0. */
  lemma {:induction false} HitsAllOrNone(ts: seq<string>, hay: string)
    ensures Hits(ts, hay) == |ts| <==> forall t :: t in ts ==> Contains(hay, t)
    ensures Hits(ts, hay) == 0 <==> forall t :: t in ts ==> !Contains(hay, t)
  {
    if ts != [] {
      HitsAllOrNone(ts[1..], hay);
      assert forall t :: t in ts <==> t == ts[0] || t in ts[1..];
    }
  }

  /** The share of `ts` found in `hay`, a value in [0, 1]. */
  function Containment(ts: seq<string>, hay: string): (c: real)
    requires ts != []
    ensures 0.0 <= c <= 1.0
    ensures Hits(ts, hay) == |ts| ==> c == 1.0
    ensures Hits(ts, hay) == 0 ==> c == 0.0
  {
    var h := Hits(ts, hay) as real;
    var n := |ts| as real;
    ShareFacts(h, n);
    h / n
  }

  /** The containment is the share of hits: scaled by the number of tokens it gives the hit count back. */
  lemma ContainmentShare(ts: seq<string>, hay: string)
    requires ts != []
    ensures Containment(ts, hay) * (|ts| as real) == Hits(ts, hay) as real
  {
    var h := Hits(ts, hay) as real;
    var n := |ts| as real;
    assert Containment(ts, hay) == h / n;
    DivScale(h, n);
  }

  /** `title_score` on texts that are already normalised. */
  function TitleScoreOf(p: Primitives, a: string, b: string): (r: real)
    ensures 0.0 <= r <= 1.0
    ensures r >= Similarity(p, a, b)
    ensures a != [] && Contains(b, a) ==> r >= 0.85
    ensures var ts := ContentTokens(Tokens(a));
      ts != [] && Hits(ts, b) == |ts| ==> r >= 0.55 * Similarity(p, a, b) + 0.45
    ensures var ts := ContentTokens(Tokens(a));
      ts != [] ==> r >= 0.55 * Similarity(p, a, b) + 0.45 * Containment(ts, b)
    // the score is the largest of the bounds that apply: one of them is met exactly
    ensures var sim := Similarity(p, a, b); var ts := ContentTokens(Tokens(a));
      || r == sim
      || (ts != [] && r == 0.55 * sim + 0.45 * Containment(ts, b))
      || (a != [] && Contains(b, a) && r == 0.85)
  {
    var sim := Similarity(p, a, b);
    var ts := ContentTokens(Tokens(a));
    var boosted := if ts != [] then Max(sim, 0.55 * sim + 0.45 * Containment(ts, b)) else sim;
    var contained := if a != [] && Contains(b, a) then Max(boosted, 0.85) else boosted;
    Clamp(contained)
  }

  /**
   * `title_score`: the similarity of the normalised titles, raised by the share of the
   * target's content tokens found in the candidate, and to at least 0.85 when the whole
   * normalised target occurs in the normalised candidate. (The tokens are taken of the
   * normalised target, which `tokens` normalises once more.)
   */
  function TitleScore(p: Primitives, target: string, candidate: string): (r: real)
    ensures 0.0 <= r <= 1.0
    ensures r >= Similarity(p, Normalize(target), Normalize(candidate))
    ensures Normalize(target) != [] && Contains(Normalize(candidate), Normalize(target)) ==> r >= 0.85
  {
    TitleScoreOf(p, Normalize(target), Normalize(candidate))
  }

  // ---- artists ----

  /** The text the artists are looked for in: normalised channel, a space, normalised title. */
  function ArtistBlob(channel: string, title: string): string {
    Normalize(channel) + " " + Normalize(title)
  }

  /** The score of one normalised artist name against the blob; at least 0.95 when the name occurs in it. */
  function ArtistMatch(p: Primitives, name: string, blob: string): (r: real)
    ensures 0.0 <= r <= 1.0
    ensures r >= Similarity(p, name, blob)
    ensures name != [] && Contains(blob, name) ==> r >= 0.95
    ensures !(name != [] && Contains(blob, name)) ==> r == Similarity(p, name, blob)
    ensures r == Similarity(p, name, blob) || r == 0.95
  {
    var sim := Similarity(p, name, blob);
    Clamp(if name != [] && Contains(blob, name) then Max(sim, 0.95) else sim)
  }

  /** The score of one artist: its normalised name matched against the blob. */
  function PerArtist(p: Primitives, artist: string, blob: string): real {
    ArtistMatch(p, Normalize(artist), blob)
  }

  /** The per-artist scores, in the order of the artists. */
  function PerArtists(p: Primitives, artists: seq<string>, blob: string): seq<real> {
    MapSeq(a => PerArtist(p, a, blob), artists)
  }

  /** `[f(x) for x in xs]`, built front to back as a loop appending to a list builds it. */
  function MapSeq<A, B>(f: A -> B, xs: seq<A>): (ys: seq<B>)
    ensures |ys| == |xs|
    ensures forall i :: 0 <= i < |xs| ==> ys[i] == f(xs[i])
  {
    if xs == [] then [] else MapSeq(f, xs[..|xs| - 1]) + [f(xs[|xs| - 1])]
  }

  /** `max(per)`. */
  function MaxOf(per: seq<real>): (m: real)
    requires per != []
    ensures exists i :: 0 <= i < |per| && per[i] == m
    ensures forall i :: 0 <= i < |per| ==> per[i] <= m
  {
    if |per| == 1 then per[0] else Max(per[0], MaxOf(per[1..]))
  }

  /** `sum(1 for s in per if s >= 0.75)`. */
  function Matched(per: seq<real>): (n: nat)
    ensures n <= |per|
  {
    if per == [] then 0 else (if per[0] >= 0.75 then 1 else 0) + Matched(per[1..])
  }

  /** No score reaches 0.75 exactly when the count is 0; two distinct scores reach it exactly when the count is at least 2. */
  lemma {:induction false} MatchedCounts(per: seq<real>)
    ensures Matched(per) == 0 <==> forall i :: 0 <= i < |per| ==> per[i] < 0.75
    ensures Matched(per) >= 2 <==> exists i, j :: 0 <= i < j < |per| && per[i] >= 0.75 && per[j] >= 0.75
    decreases |per|
  {
    if per != [] {
      var tail := per[1..];
      MatchedCounts(tail);
      assert forall i :: 0 < i < |per| ==> per[i] == tail[i - 1];
      if Matched(per) >= 2 {
        if per[0] >= 0.75 {
          var j :| 0 <= j < |tail| && tail[j] >= 0.75;
          assert per[0] >= 0.75 && per[j + 1] >= 0.75;
        } else {
          var i, j :| 0 <= i < j < |tail| && tail[i] >= 0.75 && tail[j] >= 0.75;
          assert per[i + 1] >= 0.75 && per[j + 1] >= 0.75;
        }
      }
      if exists i, j :: 0 <= i < j < |per| && per[i] >= 0.75 && per[j] >= 0.75 {
        var i, j :| 0 <= i < j < |per| && per[i] >= 0.75 && per[j] >= 0.75;
        if i == 0 {
          assert tail[j - 1] >= 0.75;
        } else {
          assert tail[i - 1] >= 0.75 && tail[j - 1] >= 0.75;
        }
      }
    }
  }

  /** The bonus for the number of artists whose score reaches 0.75: 0.08 for two or more, 0.02 for one. */
  function Bonus(matched: nat): real {
    if matched >= 2 then 0.08 else if matched == 1 then 0.02 else 0.0
  }

  /** Each bonus amount belongs to exactly one range of the match count. */
  lemma BonusAmounts(matched: nat)
    ensures Bonus(matched) == 0.08 <==> matched >= 2
    ensures Bonus(matched) == 0.02 <==> matched == 1
    ensures Bonus(matched) == 0.0 <==> matched == 0
  {
  }

  /** The best per-artist score plus the bonus, clamped, and the match count; (0.0, 0) for no artists. */
  function ScoreOfPer(per: seq<real>): (real, nat) {
    if per == [] then (0.0, 0)
    else
      var matched := Matched(per);
      (Clamp(MaxOf(per) + Bonus(matched)), matched)
  }

  /** `artist_score(artists, channel, title)`: the best per-artist score plus a bonus, and the match count. */
  function ArtistScore(p: Primitives, artists: seq<string>, channel: string, title: string): (real, nat) {
    ScoreOfPer(PerArtists(p, artists, ArtistBlob(channel, title)))
  }

  /** The combined score lies in [0, 1] and is at least every per-artist score. */
  lemma ScoreOfPerBounds(per: seq<real>)
    requires forall i :: 0 <= i < |per| ==> 0.0 <= per[i] <= 1.0
    ensures per == [] ==> ScoreOfPer(per) == (0.0, 0)
    ensures 0.0 <= ScoreOfPer(per).0 <= 1.0
    ensures forall i :: 0 <= i < |per| ==> ScoreOfPer(per).0 >= per[i]
  {
    if per != [] {
      var m := MaxOf(per);
      assert forall i :: 0 <= i < |per| ==> per[i] <= m;
    }
  }

  /** `artist_score` as written: the per-artist scores are collected by a loop. */
  method ComputeArtistScore(p: Primitives, artists: seq<string>, channel: string, title: string)
    returns (score: real, matched: nat)
    ensures (score, matched) == ArtistScore(p, artists, channel, title)
  {
    var blob := Normalize(channel) + " " + Normalize(title);
    var per := CollectPerArtist(p, artists, blob);
    score, matched := CombinePerArtist(per);
  }

  /**
   * The end of `artist_score`: (0.0, 0) without scores; otherwise a score in [0, 1] that is at
   * least every per-artist score not above 1, and a count that is 0 exactly when no score reaches
   * 0.75 and at least 2 exactly when two scores do.
   */
  method CombinePerArtist(per: seq<real>) returns (score: real, matched: nat)
    ensures (score, matched) == ScoreOfPer(per)
    ensures per == [] ==> score == 0.0 && matched == 0
    ensures 0.0 <= score <= 1.0
    ensures forall i :: 0 <= i < |per| && per[i] <= 1.0 ==> score >= per[i]
    ensures matched == 0 <==> forall i :: 0 <= i < |per| ==> per[i] < 0.75
    ensures matched >= 2 <==> exists i, j :: 0 <= i < j < |per| && per[i] >= 0.75 && per[j] >= 0.75
  {
    MatchedCounts(per);
    if per == [] {
      return 0.0, 0;
    }
    matched := Matched(per);
    var best := MaxOf(per);
    score := Clamp(best + Bonus(matched));
    assert forall i :: 0 <= i < |per| ==> per[i] <= best;
  }

  /** The loop of `artist_score` that appends one score per artist, in order. */
  method CollectPerArtist(p: Primitives, artists: seq<string>, blob: string) returns (per: seq<real>)
    ensures per == PerArtists(p, artists, blob)
  {
    per := [];
    var i := 0;
    while i < |artists|
      invariant 0 <= i <= |artists|
      invariant per == PerArtists(p, artists[..i], blob)
    {
      PerArtistsSnoc(p, artists, i, blob);
      per := per + [ArtistMatch(p, Normalize(artists[i]), blob)];
      i := i + 1;
    }
    assert artists[..i] == artists;
  }

  lemma PerArtistsSnoc(p: Primitives, artists: seq<string>, i: int, blob: string)
    requires 0 <= i < |artists|
    ensures PerArtists(p, artists[..i + 1], blob) == PerArtists(p, artists[..i], blob) + [ArtistMatch(p, Normalize(artists[i]), blob)]
  {
    assert artists[..i + 1][..i] == artists[..i];
  }

  /**
   * What `artist_score` promises about its score: (0.0, 0) for no artists; otherwise a value in
   * [0, 1] that is at least every per-artist score, and at least 0.95 when some artist's
   * normalised name occurs in the blob.
   */
  lemma ArtistScoreBounds(p: Primitives, artists: seq<string>, channel: string, title: string)
    ensures artists == [] ==> ArtistScore(p, artists, channel, title) == (0.0, 0)
    ensures var score := ArtistScore(p, artists, channel, title).0;
      var blob := ArtistBlob(channel, title);
      && 0.0 <= score <= 1.0
      && (forall i :: 0 <= i < |artists| ==> score >= PerArtist(p, artists[i], blob))
      && (forall i :: 0 <= i < |artists| && Normalize(artists[i]) != [] && Contains(blob, Normalize(artists[i])) ==> score >= 0.95)
  {
    var blob := ArtistBlob(channel, title);
    var per := PerArtists(p, artists, blob);
    ScoreOfPerBounds(per);
    var score := ScoreOfPer(per).0;
    forall i | 0 <= i < |artists| && Normalize(artists[i]) != [] && Contains(blob, Normalize(artists[i]))
      ensures score >= 0.95
    {
      assert per[i] == ArtistMatch(p, Normalize(artists[i]), blob);
    }
  }

  /**
   * What `artist_score` promises about its count: none of the per-artist scores reaches 0.75
   * exactly when the count is 0, and two of them do exactly when it is at least 2, which is
   * when the bonus is 0.08; the bonus is 0.02 for a count of 1.
   */
  lemma ArtistScoreMatched(p: Primitives, artists: seq<string>, channel: string, title: string)
    ensures var (score, matched) := ArtistScore(p, artists, channel, title);
      var per := PerArtists(p, artists, ArtistBlob(channel, title));
      && (matched == 0 <==> forall i :: 0 <= i < |artists| ==> per[i] < 0.75)
      && (matched >= 2 <==> exists i, j :: 0 <= i < j < |artists| && per[i] >= 0.75 && per[j] >= 0.75)
  {
    var blob := ArtistBlob(channel, title);
    var per := PerArtists(p, artists, blob);
    MatchedCounts(per);
  }

  // ---- duration ----

  /** `int(parts[0]) * 60 + int(parts[1])` or the three-part form; None if a part is not an integer or the count is wrong. */
  function DurationFromParts(parts: seq<string>): Option<int> {
    if |parts| == 2 then MinutesSeconds(ParseInt(parts[0]), ParseInt(parts[1]))
    else if |parts| == 3 then HoursMinutesSeconds(ParseInt(parts[0]), ParseInt(parts[1]), ParseInt(parts[2]))
    else None
  }

  function MinutesSeconds(m: Option<int>, s: Option<int>): Option<int> {
    if m.Some? && s.Some? then Some(m.value * 60 + s.value) else None
  }

  function HoursMinutesSeconds(h: Option<int>, m: Option<int>, s: Option<int>): Option<int> {
    if h.Some? && m.Some? && s.Some? then Some(h.value * 3600 + m.value * 60 + s.value) else None
  }

  /** `parse_duration_to_seconds(text)`: "m:s" or "h:m:s" to seconds, None otherwise. */
  function ParseDuration(text: string): (r: Option<int>)
    ensures text == [] ==> r == None
    ensures r.Some? ==> |Split(Strip(text), {':'})| in {2, 3}
  {
    if text == [] then None else DurationFromParts(Split(Strip(text), {':'}))
  }

  lemma DigitsHaveNoColon(n: nat)
    ensures forall c :: c in NatToString(n) ==> c != ':'
  {
    var d := NatToString(n);
    forall c | c in d ensures c != ':' {
      var i :| 0 <= i < |d| && d[i] == c;
      assert IsDigit(d[i]);
    }
  }

  /** Two colon-free pieces joined by a colon split back into those pieces. */
  lemma SplitTwo(a: string, b: string)
    requires forall c :: c in a ==> c != ':'
    requires forall c :: c in b ==> c != ':'
    ensures Split(a + ":" + b, {':'}) == [a, b]
  {
    assert a + ":" + b == a + [':'] + b;
    SplitAtSeparator(a, ':', b, {':'});
    SplitNoSeparator(b, {':'});
  }

  lemma SplitThree(a: string, b: string, c: string)
    requires forall x :: x in a ==> x != ':'
    requires forall x :: x in b ==> x != ':'
    requires forall x :: x in c ==> x != ':'
    ensures Split(a + ":" + b + ":" + c, {':'}) == [a, b, c]
  {
    assert a + ":" + b + ":" + c == a + [':'] + (b + ":" + c);
    SplitAtSeparator(a, ':', b + ":" + c, {':'});
    SplitTwo(b, c);
  }

  /**
   * Any text that strips to two colon-free parts `int` accepts is 60·m + s, whatever the sign,
   * underscores, leading zeros or whitespace around either part.
   */
  lemma ParseDurationTwoParts(text: string, a: string, b: string, m: int, s: int)
    requires Strip(text) == a + ":" + b
    requires forall c :: c in a ==> c != ':'
    requires forall c :: c in b ==> c != ':'
    requires ParseInt(a) == Some(m) && ParseInt(b) == Some(s)
    ensures ParseDuration(text) == Some(60 * m + s)
  {
    SplitTwo(a, b);
    DurationFromTwoParts(a, b);
    MinutesSecondsOf(ParseInt(a), ParseInt(b), m, s);
  }

  /** Any text that strips to three colon-free parts `int` accepts is 3600·h + 60·m + s. */
  lemma ParseDurationThreeParts(text: string, a: string, b: string, c: string, h: int, m: int, s: int)
    requires Strip(text) == a + ":" + b + ":" + c
    requires forall x :: x in a ==> x != ':'
    requires forall x :: x in b ==> x != ':'
    requires forall x :: x in c ==> x != ':'
    requires ParseInt(a) == Some(h) && ParseInt(b) == Some(m) && ParseInt(c) == Some(s)
    ensures ParseDuration(text) == Some(3600 * h + 60 * m + s)
  {
    SplitThree(a, b, c);
    DurationFromThreeParts(a, b, c);
    HoursMinutesSecondsOf(ParseInt(a), ParseInt(b), ParseInt(c), h, m, s);
  }

  /** A part that `int` rejects makes the whole text no duration (the `ValueError` branch). */
  lemma ParseDurationBadPart(text: string, k: nat)
    requires k < |Split(Strip(text), {':'})|
    requires ParseInt(Split(Strip(text), {':'})[k]) == None
    ensures ParseDuration(text) == None
  {
    DurationFromBadPart(Split(Strip(text), {':'}), k);
  }

  lemma DurationFromBadPart(parts: seq<string>, k: nat)
    requires k < |parts| && ParseInt(parts[k]) == None
    ensures DurationFromParts(parts) == None
  {
    if |parts| == 2 {
      MinutesSecondsNone(ParseInt(parts[0]), ParseInt(parts[1]), k);
    } else if |parts| == 3 {
      HoursMinutesSecondsNone(ParseInt(parts[0]), ParseInt(parts[1]), ParseInt(parts[2]), k);
    }
  }

  lemma MinutesSecondsNone(x: Option<int>, y: Option<int>, k: nat)
    requires k < 2 && (if k == 0 then x else y) == None
    ensures MinutesSeconds(x, y) == None
  {
  }

  lemma HoursMinutesSecondsNone(x: Option<int>, y: Option<int>, z: Option<int>, k: nat)
    requires k < 3 && (if k == 0 then x else if k == 1 then y else z) == None
    ensures HoursMinutesSeconds(x, y, z) == None
  {
  }

  /** "m:s" with natural numbers parses back to 60·m + s. */
  lemma ParseDurationMinutes(m: nat, s: nat)
    ensures ParseDuration(NatToString(m) + ":" + NatToString(s)) == Some(60 * m + s)
  {
    var a := NatToString(m);
    var b := NatToString(s);
    var text := a + ":" + b;
    NatToStringIsDigitRun(m);
    NatToStringIsDigitRun(s);
    assert text[0] == a[0] && text[|text| - 1] == b[|b| - 1];
    assert Trimmed(text);
    StripTrimmed(text);
    DigitsHaveNoColon(m);
    DigitsHaveNoColon(s);
    ParseIntNatToString(m);
    ParseIntNatToString(s);
    ParseDurationTwoParts(text, a, b, m, s);
  }

  lemma DurationFromTwoParts(x: string, y: string)
    ensures DurationFromParts([x, y]) == MinutesSeconds(ParseInt(x), ParseInt(y))
  {
  }

  lemma MinutesSecondsOf(x: Option<int>, y: Option<int>, m: int, s: int)
    requires x == Some(m) && y == Some(s)
    ensures MinutesSeconds(x, y) == Some(60 * m + s)
  {
  }

  lemma HoursMinutesSecondsOf(x: Option<int>, y: Option<int>, z: Option<int>, h: int, m: int, s: int)
    requires x == Some(h) && y == Some(m) && z == Some(s)
    ensures HoursMinutesSeconds(x, y, z) == Some(3600 * h + 60 * m + s)
  {
  }

  lemma DurationFromThreeParts(x: string, y: string, z: string)
    ensures DurationFromParts([x, y, z]) == HoursMinutesSeconds(ParseInt(x), ParseInt(y), ParseInt(z))
  {
    var p := [x, y, z];
    assert p[0] == x && p[1] == y && p[2] == z;
  }

  /** "h:m:s" with natural numbers parses back to 3600·h + 60·m + s. */
  lemma ParseDurationHours(h: nat, m: nat, s: nat)
    ensures ParseDuration(NatToString(h) + ":" + NatToString(m) + ":" + NatToString(s)) == Some(3600 * h + 60 * m + s)
  {
    var a := NatToString(h);
    var b := NatToString(m);
    var c := NatToString(s);
    var text := a + ":" + b + ":" + c;
    NatToStringIsDigitRun(h);
    NatToStringIsDigitRun(s);
    assert text[0] == a[0] && text[|text| - 1] == c[|c| - 1];
    assert Trimmed(text);
    StripTrimmed(text);
    DigitsHaveNoColon(h);
    DigitsHaveNoColon(m);
    DigitsHaveNoColon(s);
    ParseIntNatToString(h);
    ParseIntNatToString(m);
    ParseIntNatToString(s);
    ParseDurationThreeParts(text, a, b, c, h, m, s);
  }

  /** A text without a colon, or with more than two, is not a duration. */
  lemma ParseDurationWrongShape(text: string)
    requires |Split(Strip(text), {':'})| !in {2, 3}
    ensures ParseDuration(text) == None
  {
  }

  /** The score of an absolute difference in seconds: 1.0 / 0.85 / 0.65 / 0.35 / 0.0 up to 5 / 15 / 30 / 60 / beyond. */
  function DurationBucket(delta: real): (r: real)
    ensures 0.0 <= r <= 1.0
    ensures r == 1.0 <==> delta <= 5.0
    ensures r >= 0.85 <==> delta <= 15.0
    ensures r >= 0.65 <==> delta <= 30.0
    ensures r >= 0.35 <==> delta <= 60.0
    ensures r == 0.0 <==> delta > 60.0
    ensures r in {1.0, 0.85, 0.65, 0.35, 0.0}
  {
    if delta <= 5.0 then 1.0
    else if delta <= 15.0 then 0.85
    else if delta <= 30.0 then 0.65
    else if delta <= 60.0 then 0.35
    else 0.0
  }

  /** A larger difference never scores higher. */
  lemma DurationBucketMonotone(d1: real, d2: real)
    requires d1 <= d2
    ensures DurationBucket(d2) <= DurationBucket(d1)
  {
  }

  function Abs(x: real): real {
    if x < 0.0 then -x else x
  }

  /** The target length in seconds, at least one second. */
  function TargetSeconds(ms: int): (s: real)
    ensures s >= 1.0
    ensures ms >= 1000 ==> s == ms as real / 1000.0
    ensures ms <= 1000 ==> s == 1.0
  {
    Max(1.0, ms as real / 1000.0)
  }

  /** The candidate length: the given seconds, or else the parsed duration text. */
  function CandidateSeconds(seconds: Option<int>, text: string): (r: Option<int>)
    ensures seconds.Some? ==> r == seconds
    ensures seconds == None && ParseDuration(text) == None ==> r == None
    ensures seconds == None && text != [] ==> r == ParseDuration(text)
    ensures seconds == None && text == [] ==> r == None
  {
    if seconds == None && text != [] then ParseDuration(text) else seconds
  }

  /**
   * `duration_score(target_ms, seconds, text)`: 0.5 when the target duration is absent or 0 or
   * the candidate's duration is unknown (neither given nor parsable from the text); otherwise the
   * bucket of the difference in seconds, the target taken as at least one second.
   */
  function DurationScore(targetMs: Option<int>, seconds: Option<int>, text: string): (r: real)
    ensures 0.0 <= r <= 1.0
    ensures targetMs == None || targetMs == Some(0) ==> r == 0.5
    ensures CandidateSeconds(seconds, text) == None ==> r == 0.5
    ensures targetMs.Some? && targetMs.value != 0 && seconds.Some? ==>
      r == DurationBucket(Abs(TargetSeconds(targetMs.value) - seconds.value as real))
    ensures targetMs.Some? && targetMs.value != 0 && CandidateSeconds(seconds, text).Some? ==>
      r == DurationBucket(Abs(TargetSeconds(targetMs.value) - CandidateSeconds(seconds, text).value as real))
  {
    if targetMs == None || targetMs == Some(0) then 0.5
    else
      match CandidateSeconds(seconds, text)
      case None => 0.5
      case Some(yt) => DurationBucket(Abs(TargetSeconds(targetMs.value) - yt as real))
  }

  /** A candidate whose length is within five seconds of the target scores 1.0. */
  lemma DurationScoreClose(targetMs: int, seconds: int)
    requires targetMs >= 1000
    requires Abs(targetMs as real / 1000.0 - seconds as real) <= 5.0
    ensures DurationScore(Some(targetMs), Some(seconds), []) == 1.0
  {
  }

  // ---- rank ----

  /** `rank_prior(rank, strength)`: exp(-(max(1, rank) - 1) / max(1e-6, strength)). */
  function RankPrior(p: Primitives, rank: int, strength: real): (r: real)
    ensures 0.0 < r <= 1.0
    ensures rank <= 1 ==> r == 1.0
  {
    var k := if rank < 1 then 1 else rank;
    var s := Max(0.000001, strength);
    DivMonotone(0.0, (k - 1) as real, s);
    p.exp(-(((k - 1) as real) / s))
  }

  /** Dividing by a positive number keeps the order. */
  /** `h / n` for `0 <= h <= n`, `n > 0`: a share in [0, 1], 0 for none and 1 for all. */
  lemma ShareFacts(h: real, n: real)
    requires 0.0 <= h <= n && n > 0.0
    ensures 0.0 <= h / n <= 1.0
    ensures h == 0.0 ==> h / n == 0.0
    ensures h == n ==> h / n == 1.0
  {
    DivMonotone(0.0, h, n);
    DivMonotone(h, n, n);
  }

  lemma DivScale(h: real, n: real)
    requires n != 0.0
    ensures (h / n) * n == h
  {
  }

  lemma DivMonotone(a: real, b: real, s: real)
    requires s > 0.0 && a <= b
    ensures a / s <= b / s
  {
    var inv := 1.0 / s;
    assert inv > 0.0;
    assert a / s == a * inv && b / s == b * inv;
    assert (b - a) * inv >= 0.0;
  }

  /** A larger positive divisor gives a smaller quotient of a non-negative number. */
  lemma DivAntitone(n: real, s1: real, s2: real)
    requires n >= 0.0 && 0.0 < s1 <= s2
    ensures n / s2 <= n / s1
  {
    assert n / s1 - n / s2 == n * (s2 - s1) / (s1 * s2);
    assert s1 * s2 > 0.0;
    DivMonotone(0.0, n * (s2 - s1), s1 * s2);
  }

  /** A deeper rank never gets a larger prior. */
  lemma RankPriorMonotone(p: Primitives, r1: int, r2: int, strength: real)
    requires r1 <= r2
    ensures RankPrior(p, r2, strength) <= RankPrior(p, r1, strength)
  {
    var k1 := if r1 < 1 then 1 else r1;
    var k2 := if r2 < 1 then 1 else r2;
    var s := Max(0.000001, strength);
    DivMonotone((k1 - 1) as real, (k2 - 1) as real, s);
  }

  /** A smaller strength never gives a larger prior. */
  lemma RankPriorStrength(p: Primitives, rank: int, s1: real, s2: real)
    requires 0.000001 <= s1 <= s2
    ensures RankPrior(p, rank, s1) <= RankPrior(p, rank, s2)
  {
    var k := if rank < 1 then 1 else rank;
    var n := (k - 1) as real;
    DivAntitone(n, s1, s2);
  }

  /** Which search produced a candidate. */
  datatype Source = YTMusic | YtDlp

  /** The rank strength: the default for YouTube Music, max(3.0, 0.6 · default) for a web search. */
  function RankStrength(p: Primitives, source: Source): (s: real)
    ensures source == YTMusic ==> s == p.defaultRankStrength
    ensures source == YtDlp ==> s >= 3.0 && s >= 0.6 * p.defaultRankStrength
    ensures source == YtDlp ==> s == 3.0 || s == 0.6 * p.defaultRankStrength
  {
    if source == YTMusic then p.defaultRankStrength else Max(3.0, p.defaultRankStrength * 0.6)
  }

  /** With a default strength of at least 3, the same rank is trusted at least as much from YouTube Music as from the web search. */
  lemma YTMusicRankTrustedMore(p: Primitives, rank: int)
    requires p.defaultRankStrength >= 3.0
    ensures RankPrior(p, rank, RankStrength(p, YtDlp)) <= RankPrior(p, rank, RankStrength(p, YTMusic))
  {
    RankPriorStrength(p, rank, RankStrength(p, YtDlp), RankStrength(p, YTMusic));
  }

  // ---- heuristic ----

  predicate MentionsLive(s: string) {
    Contains(s, "live") || Contains(s, "\U{73b0}\U{573a}") || Contains(s, "\U{73fe}\U{5834}")
  }

  predicate MentionsCover(s: string) {
    Contains(s, "cover") || Contains(s, "\U{7ffb}\U{5531}")
  }

  /** The candidate is a cover that the target is not. */
  predicate CoverPenalty(target: string, candidate: string) {
    MentionsCover(Normalize(candidate)) && !MentionsCover(Normalize(target))
  }

  /** The candidate is a remix that the target is not. */
  predicate RemixPenalty(target: string, candidate: string) {
    Contains(Normalize(candidate), "remix") && !Contains(Normalize(target), "remix")
  }

  predicate BothLive(target: string, candidate: string) {
    MentionsLive(Normalize(target)) && MentionsLive(Normalize(candidate))
  }

  /**
   * `heuristic_adjustment`: +0.05 when both titles are live versions, −0.12 for an unwanted
   * cover, −0.10 for an unwanted remix.
   */
  function Heuristic(target: string, candidate: string): (r: real)
    ensures -0.22 <= r <= 0.05
    ensures r < 0.0 <==> CoverPenalty(target, candidate) || RemixPenalty(target, candidate)
    ensures r > 0.0 <==> BothLive(target, candidate) && !CoverPenalty(target, candidate) && !RemixPenalty(target, candidate)
  {
    var live := if BothLive(target, candidate) then 0.05 else 0.0;
    var cover := if CoverPenalty(target, candidate) then 0.12 else 0.0;
    var remix := if RemixPenalty(target, candidate) then 0.10 else 0.0;
    live - cover - remix
  }

  // ---- the blend ----

  /** The catalogue fields of the `track_info` dictionary the scorer reads. */
  datatype TrackInfo = TrackInfo(name: string, artists: seq<string>, durationMs: Option<int>, album: string)

  /** `track_info.get("name") or track_name`. */
  function TargetTitle(info: Option<TrackInfo>, trackName: string): string {
    if info.Some? && info.value.name != [] then info.value.name else trackName
  }

  /** The catalogue artists, or else the comma-separated names in `artist`, stripped, empty ones dropped. */
  function TargetArtists(info: Option<TrackInfo>, artist: string): seq<string> {
    var given := if info.Some? then info.value.artists else [];
    if given != [] then given else StrippedNonEmpty(Split(artist, {','}))
  }

  function TargetDurationMs(info: Option<TrackInfo>): Option<int> {
    if info.Some? then info.value.durationMs else None
  }

  /** One candidate as the scorer sees it. */
  datatype Observed = Observed(title: string, channel: string, rank: int, source: Source, seconds: Option<int>, durationText: string)

  /** 0.45 · title + 0.25 · artist + 0.20 · duration + 0.10 · rank prior + heuristic. */
  function Blend(t: real, a: real, d: real, rk: real, h: real): real {
    0.45 * t + 0.25 * a + 0.20 * d + 0.10 * rk + h
  }

  /** `calculate_match_score`: the blend of the five signals, clamped to [0, 1]. */
  function MatchScore(p: Primitives, o: Observed, trackName: string, artist: string, info: Option<TrackInfo>): (r: real)
    ensures 0.0 <= r <= 1.0
  {
    var title := TargetTitle(info, trackName);
    var t := TitleScore(p, title, o.title);
    var a := ArtistScore(p, TargetArtists(info, artist), o.channel, o.title).0;
    var d := DurationScore(TargetDurationMs(info), o.seconds, o.durationText);
    var rk := RankPrior(p, o.rank, RankStrength(p, o.source));
    var h := Heuristic(title, o.title);
    Clamp(Blend(t, a, d, rk, h))
  }

  /**
   * A top-ranked candidate whose normalised title contains the target's, in which some target
   * artist is found, and whose length agrees within five seconds, clears the confidence
   * threshold whatever the heuristic says.
   */
  lemma StrongCandidateIsConfident(p: Primitives, o: Observed, trackName: string, artist: string, info: Option<TrackInfo>, k: nat)
    requires Normalize(TargetTitle(info, trackName)) != []
    requires Contains(Normalize(o.title), Normalize(TargetTitle(info, trackName)))
    requires k < |TargetArtists(info, artist)|
    requires Normalize(TargetArtists(info, artist)[k]) != []
    requires Contains(ArtistBlob(o.channel, o.title), Normalize(TargetArtists(info, artist)[k]))
    requires DurationScore(TargetDurationMs(info), o.seconds, o.durationText) == 1.0
    requires o.rank <= 1
    ensures MatchScore(p, o, trackName, artist, info) >= ConfidenceThreshold
  {
    var artists := TargetArtists(info, artist);
    ArtistScoreBounds(p, artists, o.channel, o.title);
  }
}
