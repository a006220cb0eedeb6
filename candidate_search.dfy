/**
 * The candidate pipeline of the YouTube service: provider hits become scored candidates, the
 * pool is ranked and cut to three, and the confidence decision picks between downloading the
 * best candidate and the plain query download. Provider calls are replaced by their results.
 */
module CandidateSearch {
  import opened Wrappers
  import opened Strings
  import opened Sorting
  import opened Scoring

  /** What the caller asked for: track name, artist text and the optional catalogue record. */
  datatype Query = Query(trackName: string, artist: string, info: Option<TrackInfo>)

  /** One YouTube Music song result; `thumbnails` holds the thumbnail urls in provider order. */
  datatype MusicHit = MusicHit(videoId: string, title: string, artistNames: seq<string>, durationText: string, thumbnails: seq<string>)

  /**
   * One yt-dlp search entry. `channel` is None when the entry has no channel field, and then
   * `uploader` is used. `duration` is None when the provider's value is not an integer; a missing
   * value is given as Some(0), the default the service reads.
   */
  datatype WebHit = WebHit(videoId: string, title: string, channel: Option<string>, uploader: string, duration: Option<int>, thumbnail: string)

  datatype Candidate = Candidate(
    videoId: string, title: string, channel: string, duration: Option<int>,
    thumbnail: string, score: real, url: string, source: Source)

  /** The result of `search_candidates`; `bestScore` is None exactly when nothing was found. */
  datatype SearchOutcome = SearchOutcome(success: bool, candidates: seq<Candidate>, bestScore: Option<real>, needsConfirmation: bool)

  const MusicWatchPrefix: string := "https://music.youtube.com/watch?v="
  const WatchPrefix: string := "https://www.youtube.com/watch?v="

  function ScoreOf(c: Candidate): real {
    c.score
  }

  // ---- turning hits into candidates ----

  /** `", ".join(names)`. */
  function JoinNames(names: seq<string>): string {
    if names == [] then []
    else if |names| == 1 then names[0]
    else names[0] + ", " + JoinNames(names[1..])
  }

  /** The song length read inline from a YouTube Music hit: "m:s" or "h:m:s", and 0 for anything else. */
  function InlineDuration(text: string): (d: int)
    ensures DurationFromParts(Split(text, {':'})).None? ==> d == 0
    ensures DurationFromParts(Split(text, {':'})).Some? ==> d == DurationFromParts(Split(text, {':'})).value
    // on a text without surrounding whitespace it agrees with the `duration_score` parser, 0 standing for None
    ensures text != [] && Strip(text) == text ==> d == ParseDuration(text).GetOr(0)
  {
    DurationFromParts(Split(text, {':'})).GetOr(0)
  }

  function LastOr(urls: seq<string>, default: string): string {
    if urls == [] then default else urls[|urls| - 1]
  }

  /** The candidate made from the YouTube Music hit at 1-based position `rank`. */
  function MusicCandidate(p: Primitives, h: MusicHit, rank: int, q: Query): (c: Candidate)
    ensures c.source == YTMusic && c.videoId == h.videoId && c.url == MusicWatchPrefix + h.videoId
    ensures c.title == h.title && c.channel == JoinNames(h.artistNames)
    ensures c.duration == Some(InlineDuration(h.durationText))
    ensures h.thumbnails == [] ==> c.thumbnail == ""
    ensures h.thumbnails != [] ==> c.thumbnail == h.thumbnails[|h.thumbnails| - 1]
    ensures 0.0 <= c.score <= 1.0
    // scored as a YouTube Music hit at `rank`, with the inline duration and its text
    ensures c.score == MatchScore(p, Observed(h.title, c.channel, rank, YTMusic, c.duration, h.durationText),
                                  q.trackName, q.artist, q.info)
  {
    var channel := if h.artistNames != [] then JoinNames(h.artistNames) else "";
    var duration := InlineDuration(h.durationText);
    var o := Observed(h.title, channel, rank, YTMusic, Some(duration), h.durationText);
    Candidate(h.videoId, h.title, channel, Some(duration), LastOr(h.thumbnails, ""),
              MatchScore(p, o, q.trackName, q.artist, q.info), MusicWatchPrefix + h.videoId, YTMusic)
  }

  /** The candidate made from the yt-dlp entry at 1-based position `rank`; the duration text is not consulted. */
  function WebCandidate(p: Primitives, e: WebHit, rank: int, q: Query): (c: Candidate)
    ensures c.source == YtDlp && c.videoId == e.videoId && c.url == WatchPrefix + e.videoId
    ensures c.title == e.title && c.thumbnail == e.thumbnail
    ensures e.channel.Some? ==> c.channel == e.channel.value
    ensures e.channel.None? ==> c.channel == e.uploader
    ensures c.duration == e.duration
    ensures 0.0 <= c.score <= 1.0
    // scored as a web hit at `rank`, with the integer duration if any and no duration text
    ensures c.score == MatchScore(p, Observed(e.title, c.channel, rank, YtDlp, e.duration, ""),
                                  q.trackName, q.artist, q.info)
  {
    var channel := e.channel.GetOr(e.uploader);
    var o := Observed(e.title, channel, rank, YtDlp, e.duration, "");
    Candidate(e.videoId, e.title, channel, e.duration, e.thumbnail,
              MatchScore(p, o, q.trackName, q.artist, q.info), WatchPrefix + e.videoId, YtDlp)
  }

  /** The YouTube Music candidates, in hit order; hits without a video id are skipped but keep their rank. */
  function MusicPool(p: Primitives, hits: seq<MusicHit>, q: Query): (r: seq<Candidate>)
    ensures |r| <= |hits|
    ensures forall i :: 0 <= i < |r| ==> r[i].source == YTMusic && r[i].videoId != []
  {
    if hits == [] then []
    else
      var n := |hits|;
      var rest := MusicPool(p, hits[..n - 1], q);
      if hits[n - 1].videoId == [] then rest
      else
        var c := MusicCandidate(p, hits[n - 1], n, q);
        IdentifiedSnoc(rest, c, YTMusic);
        rest + [c]
  }

  /** The yt-dlp candidates, in entry order; empty entries are skipped but keep their rank. */
  function WebPool(p: Primitives, entries: seq<Option<WebHit>>, q: Query): (r: seq<Candidate>)
    ensures |r| <= |entries|
    ensures forall i :: 0 <= i < |r| ==> r[i].source == YtDlp
  {
    if entries == [] then []
    else
      var n := |entries|;
      var rest := WebPool(p, entries[..n - 1], q);
      if entries[n - 1].None? then rest
      else
        var c := WebCandidate(p, entries[n - 1].value, n, q);
        SourcedSnoc(rest, c, YtDlp);
        rest + [c]
  }

  /** Appending a candidate from `src` to candidates all from `src` keeps them all from `src`. */
  lemma SourcedSnoc(rest: seq<Candidate>, c: Candidate, src: Source)
    requires forall i :: 0 <= i < |rest| ==> rest[i].source == src
    requires c.source == src
    ensures forall i :: 0 <= i < |rest + [c]| ==> (rest + [c])[i].source == src
  {
  }

  /** The same, for candidates that also carry a video id. */
  lemma IdentifiedSnoc(rest: seq<Candidate>, c: Candidate, src: Source)
    requires forall i :: 0 <= i < |rest| ==> rest[i].source == src && rest[i].videoId != []
    requires c.source == src && c.videoId != []
    ensures forall i :: 0 <= i < |rest + [c]| ==> (rest + [c])[i].source == src && (rest + [c])[i].videoId != []
  {
  }

  /** The YouTube Music candidates, or the yt-dlp ones when YouTube Music produced none. */
  function Pool(p: Primitives, music: seq<MusicHit>, web: seq<Option<WebHit>>, q: Query): seq<Candidate> {
    var m := MusicPool(p, music, q);
    if m != [] then m else WebPool(p, web, q)
  }

  /** `candidates[:3]`. */
  function Top3(s: seq<Candidate>): (r: seq<Candidate>)
    ensures |r| <= 3 && |r| <= |s| && (|r| == |s| || |r| == 3)
    ensures r == s[..|r|]
  {
    if |s| <= 3 then s else s[..3]
  }

  /** `search_candidates`: the pool sorted by descending score, cut to three, and the confidence flag. */
  function Search(p: Primitives, music: seq<MusicHit>, web: seq<Option<WebHit>>, q: Query): SearchOutcome {
    var pool := Pool(p, music, web, q);
    if pool == [] then SearchOutcome(false, [], None, false)
    else
      var sorted := SortDesc(pool, ScoreOf);
      var best := sorted[0].score;
      SearchOutcome(true, Top3(sorted), Some(best), best < ConfidenceThreshold)
  }

  /** The pool of one more hit: the pool so far, extended by that hit's candidate when it has a video id. */
  lemma MusicPoolStep(p: Primitives, music: seq<MusicHit>, i: nat, q: Query)
    requires i < |music|
    ensures MusicPool(p, music[..i + 1], q)
         == MusicPool(p, music[..i], q) + (if music[i].videoId == [] then [] else [MusicCandidate(p, music[i], i + 1, q)])
  {
    assert music[..i + 1][..i] == music[..i];
  }

  lemma WebPoolStep(p: Primitives, web: seq<Option<WebHit>>, j: nat, q: Query)
    requires j < |web|
    ensures WebPool(p, web[..j + 1], q)
         == WebPool(p, web[..j], q) + (if web[j].None? then [] else [WebCandidate(p, web[j].value, j + 1, q)])
  {
    assert web[..j + 1][..j] == web[..j];
  }

  /** The YouTube Music loop of `search_candidates`. */
  method CollectMusic(p: Primitives, music: seq<MusicHit>, q: Query) returns (candidates: seq<Candidate>)
    ensures candidates == MusicPool(p, music, q)
  {
    candidates := [];
    var i := 0;
    while i < |music|
      invariant 0 <= i <= |music|
      invariant candidates == MusicPool(p, music[..i], q)
    {
      var h := music[i];
      MusicPoolStep(p, music, i, q);
      if h.videoId != [] {
        candidates := candidates + [MusicCandidate(p, h, i + 1, q)];
      }
      i := i + 1;
    }
    assert music[..i] == music;
  }

  /** The yt-dlp loop of `search_candidates`. */
  method CollectWeb(p: Primitives, web: seq<Option<WebHit>>, q: Query) returns (candidates: seq<Candidate>)
    ensures candidates == WebPool(p, web, q)
  {
    candidates := [];
    var j := 0;
    while j < |web|
      invariant 0 <= j <= |web|
      invariant candidates == WebPool(p, web[..j], q)
    {
      WebPoolStep(p, web, j, q);
      if web[j].Some? {
        candidates := candidates + [WebCandidate(p, web[j].value, j + 1, q)];
      }
      j := j + 1;
    }
    assert web[..j] == web;
  }

  /**
   * `search_candidates` as written: the YouTube Music hits are collected, the yt-dlp entries only
   * when that produced nothing, then the list is sorted and cut.
   */
  method SearchCandidates(p: Primitives, music: seq<MusicHit>, web: seq<Option<WebHit>>, q: Query)
    returns (r: SearchOutcome)
    ensures r == Search(p, music, web, q)
  {
    var candidates := CollectMusic(p, music, q);
    if candidates == [] {
      candidates := CollectWeb(p, web, q);
    }
    var sorted := SortDesc(candidates, ScoreOf);
    if sorted == [] {
      return SearchOutcome(false, [], None, false);
    }
    var best := sorted[0].score;
    r := SearchOutcome(true, Top3(sorted), Some(best), best < ConfidenceThreshold);
  }

  // ---- what the search promises ----

  /** YouTube Music produces no candidate exactly when none of its hits carries a video id. */
  lemma {:induction false} MusicPoolEmpty(p: Primitives, hits: seq<MusicHit>, q: Query)
    ensures MusicPool(p, hits, q) == [] <==> forall i :: 0 <= i < |hits| ==> hits[i].videoId == []
    decreases |hits|
  {
    if hits != [] {
      var n := |hits|;
      MusicPoolEmpty(p, hits[..n - 1], q);
      assert forall i :: 0 <= i < n - 1 ==> hits[..n - 1][i] == hits[i];
    }
  }

  /**
   * The yt-dlp results are used only when YouTube Music produced no candidate: the pool comes
   * wholly from one source, and from yt-dlp exactly when no music hit carries a video id.
   */
  lemma FallbackOnlyWithoutMusic(p: Primitives, music: seq<MusicHit>, web: seq<Option<WebHit>>, q: Query)
    ensures (exists i :: 0 <= i < |music| && music[i].videoId != []) ==>
              Pool(p, music, web, q) == MusicPool(p, music, q) && Pool(p, music, web, q) != []
    ensures (forall i :: 0 <= i < |music| ==> music[i].videoId == []) ==>
              Pool(p, music, web, q) == WebPool(p, web, q)
    ensures var pool := Pool(p, music, web, q);
      forall i :: 0 <= i < |pool| ==> (pool[i].source == YtDlp <==> MusicPool(p, music, q) == [])
  {
    MusicPoolEmpty(p, music, q);
  }

  /** The ranked candidates are elements of the pool, in descending score order. */
  lemma SearchRanked(p: Primitives, music: seq<MusicHit>, web: seq<Option<WebHit>>, q: Query)
    ensures var r := Search(p, music, web, q);
      && (r.success <==> Pool(p, music, web, q) != [])
      && (!r.success ==> r.candidates == [] && r.bestScore == None && !r.needsConfirmation)
      && |r.candidates| <= 3
      && (forall i, j :: 0 <= i < j < |r.candidates| ==> r.candidates[i].score >= r.candidates[j].score)
      && (forall i :: 0 <= i < |r.candidates| ==> r.candidates[i] in Pool(p, music, web, q))
  {
    var pool := Pool(p, music, web, q);
    if pool != [] {
      var sorted := SortDesc(pool, ScoreOf);
      SortDescSorted(pool, ScoreOf);
      var top := Top3(sorted);
      forall i | 0 <= i < |top|
        ensures top[i] in pool
      {
        assert top[i] == sorted[i];
        assert sorted[i] in multiset(sorted);
      }
    }
  }

  /**
   * The reported best score is the first candidate's and the highest in the pool; confirmation is
   * needed exactly when it is below the threshold; and a pool candidate left out of the top three
   * scores no higher than any candidate kept.
   */
  lemma SearchBest(p: Primitives, music: seq<MusicHit>, web: seq<Option<WebHit>>, q: Query)
    requires Pool(p, music, web, q) != []
    ensures var r := Search(p, music, web, q);
      var pool := Pool(p, music, web, q);
      && r.success && r.candidates != [] && |r.candidates| == (if |pool| < 3 then |pool| else 3)
      && r.bestScore == Some(r.candidates[0].score)
      && (r.needsConfirmation <==> r.candidates[0].score < ConfidenceThreshold)
      && (forall c :: c in pool ==> r.candidates[0].score >= c.score)
      && (forall c, i :: c in pool && c !in r.candidates && 0 <= i < |r.candidates| ==> r.candidates[i].score >= c.score)
  {
    var pool := Pool(p, music, web, q);
    var sorted := SortDesc(pool, ScoreOf);
    SortDescSorted(pool, ScoreOf);
    var top := Top3(sorted);
    forall c | c in pool
      ensures top[0].score >= c.score
    {
      SortDescFirstIsMax(pool, ScoreOf, c);
    }
    forall c, i | c in pool && c !in top && 0 <= i < |top|
      ensures top[i].score >= c.score
    {
      assert c in multiset(sorted);
      var k :| 0 <= k < |sorted| && sorted[k] == c;
      assert forall m :: 0 <= m < |top| ==> top[m] == sorted[m];
      assert k >= |top|;
      assert i < k;
    }
  }

  // ---- choosing what to download ----

  /** What `search_and_download` ends up downloading. */
  datatype DownloadPlan = DirectVideo(videoId: string) | AutoSelected(candidate: Candidate) | QueryDownload(query: string)

  /** The yt-dlp query text: with the album and "official" when the album is known, else with "official audio". */
  function FallbackQuery(q: Query): (r: string)
    ensures Contains(r, q.artist) && Contains(r, q.trackName)
    ensures q.info.Some? && q.info.value.album != [] ==> Contains(r, q.info.value.album)
  {
    var head := q.artist + " " + q.trackName;
    assert OccursAt(head, q.artist, 0);
    assert OccursAt(head, q.trackName, |q.artist| + 1);
    if q.info.Some? && q.info.value.album != [] then
      var album := q.info.value.album;
      var r := head + " " + album + " official";
      assert r[..|head|] == head;
      assert r[|head| + 1..|head| + 1 + |album|] == album;
      assert OccursAt(r, album, |head| + 1);
      assert OccursAt(r, q.artist, 0);
      assert OccursAt(r, q.trackName, |q.artist| + 1);
      r
    else
      var r := head + " official audio";
      assert r[..|head|] == head;
      assert OccursAt(r, q.artist, 0);
      assert OccursAt(r, q.trackName, |q.artist| + 1);
      r
  }

  /**
   * `search_and_download`'s choice. `videoId` is "" when none was given; `search` is None when
   * the search raised. A candidate is taken only from a successful search whose first candidate
   * reaches the threshold.
   */
  function PlanDownload(videoId: string, search: Option<SearchOutcome>, q: Query): (plan: DownloadPlan)
    ensures videoId != [] ==> plan == DirectVideo(videoId)
    ensures plan.AutoSelected? ==>
      && search.Some? && search.value.candidates != []
      && plan.candidate == search.value.candidates[0] && plan.candidate.score >= ConfidenceThreshold
    ensures plan.QueryDownload? ==> plan.query == FallbackQuery(q)
  {
    if videoId != [] then DirectVideo(videoId)
    else if search.Some? && search.value.success && search.value.candidates != []
         && search.value.candidates[0].score >= ConfidenceThreshold then
      AutoSelected(search.value.candidates[0])
    else QueryDownload(FallbackQuery(q))
  }

  /**
   * Without a video id, the best candidate is downloaded exactly when the search found something
   * that needs no confirmation, and what is downloaded then scores highest in the pool.
   */
  lemma AutoSelectIffConfident(p: Primitives, music: seq<MusicHit>, web: seq<Option<WebHit>>, q: Query)
    ensures var r := Search(p, music, web, q);
      var plan := PlanDownload("", Some(r), q);
      && (plan.AutoSelected? <==> r.success && !r.needsConfirmation)
      && (plan.AutoSelected? ==> forall c :: c in Pool(p, music, web, q) ==> plan.candidate.score >= c.score)
      && (!plan.AutoSelected? ==> plan == QueryDownload(FallbackQuery(q)))
  {
    if Pool(p, music, web, q) != [] {
      SearchBest(p, music, web, q);
    }
  }

  // ---- download error messages ----

  const BlockedHead: string := "YouTube blocked the request (HTTP 403)."
  const BlockedShort: string := BlockedHead + " Try again in a few minutes."
  const BlockedLong: string := BlockedHead + " This can happen due to rate limiting, IP blocking, or YouTube's anti-bot measures. Try again in a few minutes, or ensure yt-dlp is up to date: pip install --upgrade yt-dlp"
  const NetworkPrefix: string := "Network error: "
  const NetworkSuffix: string := ". Check your internet connection and try again."
  const FailedPrefix: string := "YouTube download failed: "
  const FailedSuffix: string := ". This may be due to the video being unavailable, region-locked, or YouTube blocking the request. Try a different track or wait a few minutes."

  /** The provider refused the request. */
  predicate Blocked(msg: string) {
    Contains(msg, "403") || Contains(msg, "Forbidden")
  }

  lemma BlockedMessagesAreBlocked()
    ensures Blocked(BlockedShort) && Blocked(BlockedLong)
    ensures BlockedLong[0] == 'Y' && BlockedLong[8] == 'b'
  {
    assert Contains(BlockedHead, "403") by {
      assert BlockedHead[34] == '4' && BlockedHead[35] == '0' && BlockedHead[36] == '3';
      assert BlockedHead[34..37] == "403";
      assert OccursAt(BlockedHead, "403", 34);
    }
    ContainsConcat(BlockedHead, " Try again in a few minutes.", "403");
    ContainsConcat(BlockedHead, BlockedLong[|BlockedHead|..], "403");
    assert BlockedLong[0] == 'Y' && BlockedLong[8] == 'b' by {
      assert BlockedLong == BlockedHead + BlockedLong[|BlockedHead|..];
      assert BlockedLong[0] == BlockedHead[0] && BlockedLong[8] == BlockedHead[8];
    }
  }

  /** The message `download_by_video_id` reports: the short 403 text exactly when the request was refused. */
  function DirectDownloadError(msg: string): (r: string)
    ensures r == BlockedShort <==> Blocked(msg)
    ensures !Blocked(msg) ==> r == msg
  {
    BlockedMessagesAreBlocked();
    if Blocked(msg) then BlockedShort else msg
  }

  /**
   * The message the query download reports: the long 403 text exactly when the request was
   * refused, and otherwise a text that still holds the original message.
   */
  function SearchDownloadError(msg: string): (r: string)
    ensures r == BlockedLong <==> Blocked(msg)
    ensures !Blocked(msg) ==> Contains(r, msg)
    ensures !Blocked(msg) && Contains(msg, "HTTP Error") ==> StartsWith(r, NetworkPrefix)
    ensures !Blocked(msg) && Contains(msg, "HTTP Error") ==> r == NetworkPrefix + msg + NetworkSuffix
    ensures !Blocked(msg) && !Contains(msg, "HTTP Error") && Contains(Lower(msg), "unable to download video data") ==>
      r == FailedPrefix + msg + FailedSuffix
    ensures !Blocked(msg) && !Contains(msg, "HTTP Error") && !Contains(Lower(msg), "unable to download video data") ==> r == msg
  {
    BlockedMessagesAreBlocked();
    if Blocked(msg) then BlockedLong
    else if Contains(msg, "HTTP Error") then
      var r := NetworkPrefix + msg + NetworkSuffix;
      assert r[0] == NetworkPrefix[0] == 'N';
      assert OccursAt(r, msg, |NetworkPrefix|);
      r
    else if Contains(Lower(msg), "unable to download video data") then
      var r := FailedPrefix + msg + FailedSuffix;
      assert r[8] == FailedPrefix[8] == 'd';
      assert OccursAt(r, msg, |FailedPrefix|);
      r
    else
      ContainsItself(msg);
      msg
  }

  // ---- video id to url ----

  predicate IsIdChar(c: char) {
    'A' <= c <= 'Z' || 'a' <= c <= 'z' || '0' <= c <= '9' || c == '_' || c == '-'
  }

  /** A bare video id: exactly eleven letters, digits, `_` or `-`. */
  predicate IsBareId(s: string) {
    |s| == 11 && forall i :: 0 <= i < |s| ==> IsIdChar(s[i])
  }

  /** The url `extract_video_info` asks for: a bare id becomes a watch url, anything else is kept. */
  function CanonicalUrl(urlOrId: string): (r: string)
    ensures !IsBareId(urlOrId) ==> r == urlOrId
    ensures IsBareId(urlOrId) ==> StartsWith(r, WatchPrefix) && r[|WatchPrefix|..] == urlOrId
    ensures !IsBareId(r)
  {
    if IsBareId(urlOrId) then WatchPrefix + urlOrId else urlOrId
  }

  /** Canonicalising twice is canonicalising once. */
  lemma CanonicalUrlIdempotent(s: string)
    ensures CanonicalUrl(CanonicalUrl(s)) == CanonicalUrl(s)
  {
    var r := CanonicalUrl(s);
    assert !IsBareId(r);
  }
}
