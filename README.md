# music-downloader core, modelled in Dafny

The backend of music-downloader takes a catalogue track. It looks the track up on YouTube Music, and
falls back to a yt-dlp web search when that finds nothing. It scores every hit against the track,
downloads the best one or a query download, and tags the file. The file then goes either to a
Navidrome library or to the browser. The progress of every download is a job row in a small SQLite
table, written step by step and polled by the front end.

This project models three parts of that backend:

- **The matching engine** (`backend/services/youtube.py`):
  - text normalisation;
  - the five scoring signals and their blend;
  - candidate collection, ranking and the confidence decision;
  - the auto-selection in `search_and_download`;
  - the download error messages, `sanitize_filename` and the video-id URL.
- **The job store** (`backend/utils/job_store.py`):
  - the merge-upsert;
  - the point lookup;
  - the album listing and the album aggregate.
- **The job lifecycle** (`backend/app.py`):
  - the two background download tasks as sequences of store writes;
  - the track and album endpoints;
  - the album status endpoint;
  - the guards of the file endpoint, with the framework's decoding of its query value in front of
    the handler's own (see "Findings");
  - the location, limit and manual-metadata validators.

The files, in dependency order:

| file | module | contents |
|---|---|---|
| `wrappers.dfy` | `Wrappers` | `Option` and `Result` |
| `strings.dfy` | `Strings` | the Python string operations the core uses: lower-casing, `strip`, `\s+` collapsing, `split`, `replace`, substring search, `int()` |
| `sorting.dfy` | `Sorting` | a stable descending sort by a real key, like `list.sort(key=..., reverse=True)` |
| `normalizer.dfy` | `Normalizer` | `normalize_text`, `tokens`, `sanitize_filename` |
| `scoring.dfy` | `Scoring` | title, artist, duration, rank and heuristic scores, and the blend |
| `candidate_search.dfy` | `CandidateSearch` | `search_candidates`, the selection in `search_and_download`, error messages, URL canonicalisation |
| `job_store.dfy` | `JobStore` | the `Store` class (rows and insertion order), `Merge`, `Replay` of a write sequence, and the queries |
| `orchestrator.dfy` | `Orchestrator` | the `app.py` flows as methods on a `Store`, the write sequences they issue, and the lifecycle lemmas |

How the model is built:

- **Outside services become inputs.** Provider results (YouTube Music hits, yt-dlp entries, catalogue
  records) are inputs. So is the outcome of every collaborator call in the background tasks: returned
  or raised, with its value.
- **Primitives become a parameter.** `SequenceMatcher.ratio`, `math.exp` and the rank strength read
  from the environment are fields of a `Primitives` value.
  - The ratio has type `Ratio`, a real in [0, 1].
  - The exponential has type `Exp`: it is 1 at 0, lies in (0, 1] for non-positive arguments, and is
    monotone.
- **Store writes are replayed.** Each background task is a `method` that calls `Store.Upsert` step by
  step. Its `ensures` says the store ends up as `Replay` of a write sequence, given as a function of
  the run's outcomes. The lifecycle properties are lemmas about those sequences and about `Replay`.

## Model

| member | source | states |
|---|---|---|
| Strings.Lower | backend/services/youtube.py:39 | lower-cases character by character, keeping the length |
| Strings.ReplaceAll | backend/services/youtube.py:58-59 | `str.replace` leaves only characters of the text or of the replacement |
| Strings.ReplaceAllNoMatch | backend/services/youtube.py:58-59 | a pattern that does not occur leaves the text unchanged |
| Strings.ReplaceCharPointwise | backend/services/youtube.py:42 | replacing one character by another keeps the length and changes exactly the positions holding that character |
| Strings.Strip | backend/services/youtube.py:69 | `str.strip` yields a trimmed text, no longer than its input and made of its characters |
| Strings.StripIsSlice | backend/services/youtube.py:69 | the stripped text is a slice of the input with only whitespace outside it |
| Strings.StripExact | backend/services/youtube.py:69 | for text between whitespace-only ends that has no outer whitespace itself, stripping gives exactly that text |
| Strings.CollapseSpaces | backend/services/youtube.py:69 | replacing each whitespace run by one space keeps emptiness and the first character's kind, and adds only spaces |
| Strings.CollapseKeepsVisible | backend/services/youtube.py:69 | collapsing whitespace keeps every non-whitespace character, in order |
| Strings.CollapseIsSingleSpaced | backend/services/youtube.py:69 | after collapsing, no two whitespace characters are adjacent |
| Strings.CollapseSingleSpaced | backend/services/youtube.py:69 | collapsing an already single-spaced text changes nothing |
| Strings.StripTidy | backend/services/youtube.py:69 | stripping a single-spaced text gives a text with no outer and no doubled whitespace |
| Strings.Split | backend/services/youtube.py:122 | `split` returns at least one part, and no part contains a separator |
| Strings.SplitJoin | backend/services/youtube.py:122 | splitting the join of separator-free parts gives back the parts |
| Strings.StrippedNonEmpty | backend/app.py:457 | keeps only non-empty, stripped parts |
| Strings.StrippedNonEmptyFilter | backend/app.py:457 | the result is the in-order list of the stripped parts that are non-empty |
| Strings.NonEmptyKeeps | backend/services/youtube.py:74 | the empty-piece filter drops no non-empty piece |
| Strings.ParseIntNatToString | backend/services/youtube.py:124-127 | `int()` reads back the decimal text of every natural number |
| Sorting.SortDesc | backend/services/youtube.py:343 | sorting by score is a permutation of the candidates |
| Sorting.SortDescSorted | backend/services/youtube.py:343 | the sorted candidates have non-increasing scores |
| Sorting.SortDescStable | backend/services/youtube.py:343 | candidates with equal scores keep their order, as Python's sort does |
| Sorting.SortDescFirstIsMax | backend/services/youtube.py:343-353 | the first sorted candidate scores at least as high as any candidate |
| Normalizer.UnifySeparators | backend/services/youtube.py:42 | no `–`, `—`, `-` or `:` remains; only spaces are added |
| Normalizer.UnifySeparatorsPointwise | backend/services/youtube.py:42 | the length is kept, each of `–`, `—`, `-`, `:` becomes a space and every other character stays in place |
| Normalizer.RemoveTokens | backend/services/youtube.py:45-59 | removing the meta tokens adds only spaces |
| Normalizer.RemoveTokensNoMatch | backend/services/youtube.py:58-59 | tokens that do not occur leave the text unchanged |
| Normalizer.RemoveTokensEmpty | backend/services/youtube.py:58-59 | the empty text stays empty |
| Normalizer.IndexOf | backend/services/youtube.py:62-63 | finds the first occurrence of the closing bracket |
| Normalizer.RemoveBracketed | backend/services/youtube.py:62-63 | removing bracketed meta phrases adds only spaces |
| Normalizer.RemoveBracketedNoMatch | backend/services/youtube.py:62-63 | where no opening bracket is followed by a meta word and a later closing bracket, the text is unchanged |
| Normalizer.FeatMatchLength | backend/services/youtube.py:66 | a match of length 5, 4, 3 or 2 is the text `feat.`, `feat`, `ft.` or `ft` between word boundaries, and any of the four forms between word boundaries is matched |
| Normalizer.CanonicalFeat | backend/services/youtube.py:66 | rewriting feat tokens adds only the letters of `feat` |
| Normalizer.CanonicalFeatKeeps | backend/services/youtube.py:66 | text whose only feat-like tokens are the plain word `feat` is unchanged |
| Normalizer.WithoutMeta | backend/services/youtube.py:39-66 | the text before whitespace collapsing has no dash or colon separators |
| Normalizer.WithoutMetaPlain | backend/services/youtube.py:39-59 | lower-case text without separators or meta tokens passes through unchanged |
| Normalizer.NormalizeText | backend/services/youtube.py:37-70 | the loop over the meta tokens computes `Normalize` |
| Normalizer.NormalizeOutput | backend/services/youtube.py:37-70 | normalised text has no outer whitespace, no two adjacent whitespace characters, and no `–`, `—`, `-` or `:` |
| Normalizer.NormalizeEmpty | backend/services/youtube.py:39 | the empty text (and `None`) normalises to the empty text |
| Normalizer.TokensJoin | backend/services/youtube.py:72-74 | `tokens` are non-empty and whitespace-free, and joined by spaces they give back the normalised text |
| Normalizer.RemoveForbidden | backend/services/youtube.py:665 | keeps only characters of the text, and none of `<>:"/\|?*` |
| Normalizer.RemoveForbiddenAppend | backend/services/youtube.py:665 | the deletion works piece by piece, so the kept characters keep their order |
| Normalizer.RemoveForbiddenKeeps | backend/services/youtube.py:665 | every character outside `<>:"/\\|?*` is kept |
| Normalizer.SanitizeFilename | backend/services/youtube.py:662-670 | the result has none of `<>:"/\|?*`, no outer whitespace and no whitespace runs |
| Normalizer.SanitizeIdempotent | backend/services/youtube.py:662-670 | sanitising twice equals sanitising once |
| Scoring.Clamp | backend/services/youtube.py:91 | `max(0, min(x, 1))` lies in [0, 1]: 0 below the range, 1 above it, and the value itself inside |
| Scoring.Max | backend/services/youtube.py:86 | `max(a, b)` is one of its arguments and bounds both |
| Scoring.Similarity | backend/services/youtube.py:31-35 | the similarity of the lower-cased, stripped texts lies in [0, 1] |
| Scoring.ContentTokens | backend/services/youtube.py:82 | the kept tokens have two or more characters, are not `feat`, and come from the input |
| Scoring.ContentTokensKeep | backend/services/youtube.py:82 | every token of two or more characters other than `feat` is kept |
| Scoring.Containment | backend/services/youtube.py:84-85 | the share of tokens found lies in [0, 1]; it is 1 when all are found and 0 when none is |
| Scoring.ContainmentShare | backend/services/youtube.py:84-85 | the share times the number of tokens is the number of tokens found |
| Scoring.HitsAllOrNone | backend/services/youtube.py:84 | every token is counted exactly when all occur, and the count is 0 exactly when none occurs |
| Scoring.TitleScoreOf | backend/services/youtube.py:79-91 | the title score lies in [0, 1], is at least the similarity, at least 0.55·sim + 0.45·containment when there are content tokens, and at least 0.85 when the target occurs whole; and it equals one of those bounds, so it is their maximum |
| Scoring.TitleScore | backend/services/youtube.py:76-91 | `title_score` lies in [0, 1], is at least the similarity of the normalised titles, and is at least 0.85 when the normalised target is non-empty and occurs in the normalised candidate |
| Scoring.ArtistMatch | backend/services/youtube.py:99-103 | one artist's score lies in [0, 1], is at least its similarity, at least 0.95 when the name occurs in the blob, and exactly the similarity otherwise; it is always either the similarity or 0.95 |
| Scoring.MapSeq | backend/services/youtube.py:98-103 | the per-artist scores follow the artists one by one |
| Scoring.MaxOf | backend/services/youtube.py:108 | `max(per)` is one of the scores and bounds all of them |
| Scoring.MatchedCounts | backend/services/youtube.py:109 | the count is 0 exactly when no score reaches 0.75, and at least 2 exactly when two do |
| Scoring.BonusAmounts | backend/services/youtube.py:111-115 | the bonus is 0.08 exactly for two or more matches, 0.02 exactly for one, 0 exactly for none |
| Scoring.ScoreOfPerBounds | backend/services/youtube.py:105-117 | no scores give (0.0, 0); otherwise the score lies in [0, 1] and bounds every per-artist score |
| Scoring.ComputeArtistScore | backend/services/youtube.py:93-117 | the loop that appends per-artist scores computes `ArtistScore` |
| Scoring.CollectPerArtist | backend/services/youtube.py:97-103 | the loop over the artists appends one score per artist, in order, and ends with `PerArtists` |
| Scoring.CombinePerArtist | backend/services/youtube.py:105-117 | (0.0, 0) without scores; otherwise a score in [0, 1] that is at least every per-artist score up to 1, and a count that is 0 exactly when no score reaches 0.75 and at least 2 exactly when two scores do |
| Scoring.ArtistScoreBounds | backend/services/youtube.py:93-117 | `artist_score` gives (0.0, 0) for no artists, else a score in [0, 1] that is at least every per-artist score and at least 0.95 when a normalised artist occurs in the blob |
| Scoring.ArtistScoreMatched | backend/services/youtube.py:108-115 | the count is 0 exactly when no artist reaches 0.75, and at least 2 exactly when two do |
| Scoring.ParseDuration | backend/services/youtube.py:119-130 | the empty text gives None; a result needs two or three colon parts |
| Scoring.ParseDurationMinutes | backend/services/youtube.py:122-126 | "m:s" parses to 60·m + s |
| Scoring.ParseDurationHours | backend/services/youtube.py:122-128 | "h:m:s" parses to 3600·h + 60·m + s |
| Scoring.ParseDurationTwoParts | backend/services/youtube.py:119-125 | any text that strips to two colon-free parts `int` accepts (signs, underscores, inner whitespace) parses to 60·m + s |
| Scoring.ParseDurationThreeParts | backend/services/youtube.py:119-127 | any text that strips to three colon-free parts `int` accepts parses to 3600·h + 60·m + s |
| Scoring.ParseDurationBadPart | backend/services/youtube.py:122-129 | a part that `int` rejects makes the text no duration, whatever the number of parts |
| Scoring.DurationFromBadPart | backend/services/youtube.py:123-129 | the `ValueError` of any part turns the two- or three-part sum into None |
| Scoring.ParseDurationWrongShape | backend/services/youtube.py:124-130 | any other number of parts gives None |
| Scoring.DurationBucket | backend/services/youtube.py:146-154 | the score is 1.0 / 0.85 / 0.65 / 0.35 / 0.0 exactly for a difference up to 5 / 15 / 30 / 60 / beyond |
| Scoring.DurationBucketMonotone | backend/services/youtube.py:146-154 | a larger difference never scores higher |
| Scoring.TargetSeconds | backend/services/youtube.py:143 | the target length is `ms / 1000` seconds, and 1 second when that is below 1 |
| Scoring.CandidateSeconds | backend/services/youtube.py:137-139 | given seconds win; without them a non-empty text gives its parsed duration and an empty text gives None |
| Scoring.DurationScore | backend/services/youtube.py:132-154 | 0.5 for a missing or zero target or an unknown candidate length; otherwise the bucket of the difference between the target and the candidate length, given or parsed from the text |
| Scoring.DurationScoreClose | backend/services/youtube.py:143-147 | a candidate within five seconds of the target scores 1.0 |
| Scoring.RankPrior | backend/services/youtube.py:156-158 | the prior lies in (0, 1] and is 1 for rank 1 or less |
| Scoring.RankPriorMonotone | backend/services/youtube.py:156-158 | a later rank never has a higher prior |
| Scoring.RankPriorStrength | backend/services/youtube.py:156-158 | a larger strength never lowers the prior |
| Scoring.RankStrength | backend/services/youtube.py:212-215 | YouTube Music uses the default strength; the web search uses the larger of 3.0 and 0.6 × default |
| Scoring.YTMusicRankTrustedMore | backend/services/youtube.py:212-216 | with the default strength at least 3, a web result's prior is never above a YouTube Music result's at the same rank |
| Scoring.Heuristic | backend/services/youtube.py:160-177 | the adjustment lies in [−0.22, 0.05]; it is negative exactly for an unwanted cover or remix, and positive exactly for a live match without those |
| Scoring.MatchScore | backend/services/youtube.py:179-222 | the blended score is clamped to [0, 1] |
| Scoring.StrongCandidateIsConfident | backend/services/youtube.py:179-222 | a first-ranked candidate that contains the title and an artist, with a matching length, reaches the 0.65 threshold |
| CandidateSearch.InlineDuration | backend/services/youtube.py:247-256 | an "m:s" or "h:m:s" text gives its seconds and anything else gives 0; on text without outer whitespace this is the `duration_score` parser with 0 for None |
| CandidateSearch.MusicCandidate | backend/services/youtube.py:239-281 | a YouTube Music candidate keeps the hit's id and title, joins the artist names as its channel, takes the inline duration and the last thumbnail, has the music watch URL and source `ytmusic`, and is scored by `calculate_match_score` at the hit's rank with that duration and its text |
| CandidateSearch.WebCandidate | backend/services/youtube.py:310-338 | a web candidate keeps the entry's id, title, thumbnail and integer duration, takes the channel or else the uploader, has the watch URL and source `yt-dlp`, and is scored by `calculate_match_score` at the entry's rank with no duration text |
| CandidateSearch.MusicPool | backend/services/youtube.py:238-282 | hits without a video id are skipped; every candidate is from YouTube Music and has a video id |
| CandidateSearch.WebPool | backend/services/youtube.py:306-338 | empty entries are skipped; every candidate is from the web search |
| CandidateSearch.MusicPoolStep | backend/services/youtube.py:238-282 | one more hit appends at most its own candidate |
| CandidateSearch.WebPoolStep | backend/services/youtube.py:306-338 | one more entry appends at most its own candidate |
| CandidateSearch.CollectMusic | backend/services/youtube.py:238-282 | the loop over YouTube Music hits builds `MusicPool` |
| CandidateSearch.CollectWeb | backend/services/youtube.py:306-338 | the loop over web entries builds `WebPool` |
| CandidateSearch.SearchCandidates | backend/services/youtube.py:225-362 | the method computes the search outcome `Search` |
| CandidateSearch.Top3 | backend/services/youtube.py:358 | `candidates[:3]` is a prefix of at most three |
| CandidateSearch.MusicPoolEmpty | backend/services/youtube.py:238-241 | YouTube Music yields nothing exactly when no hit has a video id |
| CandidateSearch.FallbackOnlyWithoutMusic | backend/services/youtube.py:286-287 | the web search is used exactly when YouTube Music produced no candidate, and then all candidates come from it |
| CandidateSearch.SearchRanked | backend/services/youtube.py:343-362 | success exactly when there are candidates; without any the result is empty with no confirmation; at most 3 results, sorted by score, all from the pool |
| CandidateSearch.SearchBest | backend/services/youtube.py:343-362 | with candidates, min(3, pool) are returned, the best score is the first one's, confirmation is needed exactly below 0.65, and no dropped candidate beats a returned one |
| CandidateSearch.FallbackQuery | backend/services/youtube.py:486-489 | the query holds the artist, the track name and, when known, the album |
| CandidateSearch.PlanDownload | backend/services/youtube.py:463-489 | a given video id is downloaded directly; an auto-selected candidate is the first of the search and reaches the threshold; otherwise the fallback query is downloaded |
| CandidateSearch.AutoSelectIffConfident | backend/services/youtube.py:470-489 | without a video id, a candidate is auto-selected exactly when the search succeeded without needing confirmation, and it scores highest in the pool |
| CandidateSearch.BlockedMessagesAreBlocked | backend/services/youtube.py:456-457 | both rewritten 403 messages still count as blocked |
| CandidateSearch.DirectDownloadError | backend/services/youtube.py:454-461 | the short 403 text exactly for a blocked request; any other message is kept |
| CandidateSearch.SearchDownloadError | backend/services/youtube.py:645-660 | the long 403 text exactly for a blocked request; otherwise "Network error: <msg>. Check your internet connection…" for an HTTP error, "YouTube download failed: <msg>. This may be due to…" when the lower-cased message says the video data could not be downloaded, and the message unchanged when no rule applies |
| CandidateSearch.CanonicalUrl | backend/services/youtube.py:690-693 | a bare 11-character id becomes a watch URL ending in the id; anything else is kept; the result is never a bare id |
| CandidateSearch.CanonicalUrlIdempotent | backend/services/youtube.py:690-693 | canonicalising twice equals canonicalising once |
| JobStore.Coalesce | backend/utils/job_store.py:84-90 | `COALESCE(new, old)` takes the new value when given, else the old |
| JobStore.Encode | backend/utils/job_store.py:96 | an absent payload stores NULL; a given one is stored encoded |
| JobStore.Lookup | backend/utils/job_store.py:104-113 | finds a row exactly when its id is stored |
| JobStore.Merge | backend/utils/job_store.py:61-101 | status, message and `updated_at` are always overwritten; an insert writes the given fields and `created_at` = now; an update keeps `created_at` and coalesces every other field |
| JobStore.MergeIdempotent | backend/utils/job_store.py:77-98 | repeating the same upsert at the same time changes nothing |
| JobStore.MergeFullUpdateForgetsHistory | backend/utils/job_store.py:82-92 | an upsert that gives every field leaves nothing of the old row but `created_at` |
| JobStore.Upserted | backend/utils/job_store.py:77-98 | the upsert adds the job id, merges its row, and leaves every other row as it was |
| JobStore.UpsertKeepsWellFormed | backend/utils/job_store.py:77-98 | the rows and their insertion order stay consistent and duplicate-free |
| JobStore.Store.constructor | backend/utils/job_store.py:34-47 | a new table is empty |
| JobStore.Store.Upsert | backend/utils/job_store.py:61-101 | `upsert_job` replaces the table by its merge-upsert and keeps it well formed |
| JobStore.ReplayKeys | backend/utils/job_store.py:77-98 | after a sequence of upserts the table holds the old ids and every written id |
| JobStore.ReplayWellFormed | backend/utils/job_store.py:77-98 | a sequence of upserts keeps the table well formed |
| JobStore.ReplaySnoc | backend/utils/job_store.py:77-98 | one more write is one more upsert at the end |
| JobStore.ReplayAppend | backend/utils/job_store.py:77-98 | replaying two sequences one after the other equals replaying their concatenation |
| JobStore.ReplayCons | backend/utils/job_store.py:77-98 | replaying a sequence is its first upsert, then the rest |
| JobStore.ReplayKeepsAlbum | backend/utils/job_store.py:84-91 | writes without album id and payload keep a row's album id, payload and `created_at` |
| JobStore.ReplayUniform | backend/utils/job_store.py:82-91 | after writing the same update to several jobs, each has its status and message and every field it gave |
| JobStore.ReplayOthers | backend/utils/job_store.py:82 | writes to other ids leave a row untouched |
| JobStore.Decode | backend/utils/job_store.py:115-122 | an absent or unparsable payload reads as None; an encoded one reads back as itself |
| JobStore.GetJob | backend/utils/job_store.py:104-126 | None exactly for an unknown id; otherwise every column of the stored row (status, stage, progress, message, file, link, error, album, timestamps) with the id and the decoded payload |
| JobStore.GetAfterUpsert | backend/utils/job_store.py:61-126 | reading a job just upserted shows the new status, message and time, the new payload or the old one, and the old `created_at`; every other job reads as before |
| JobStore.Members | backend/utils/job_store.py:128-143 | the listing holds only stored jobs of the album, other than the excluded id |
| JobStore.MembersComplete | backend/utils/job_store.py:128-143 | every stored job of the album, other than the excluded id, is listed |
| JobStore.MembersDistinct | backend/utils/job_store.py:128-143 | no job is listed twice |
| JobStore.TrackJobs | backend/utils/job_store.py:128-145 | ordering the listing is a permutation of it |
| JobStore.TrackJobsSpec | backend/utils/job_store.py:128-145 | `get_album_track_jobs` returns exactly the album's jobs other than the excluded one, each once, by `updated_at` descending |
| JobStore.DistinctCountsOnce | backend/utils/job_store.py:128-145 | in a listing without repeated ids each entry occurs once |
| JobStore.CountStatus | backend/utils/job_store.py:157-165 | a status count is at most the total |
| JobStore.Active | backend/utils/job_store.py:167-177 | the jobs still running are exactly the members neither completed nor failed |
| JobStore.CountsPartition | backend/utils/job_store.py:157-165 | completed + failed + still running = total |
| JobStore.AggregateStatus | backend/utils/job_store.py:148-189 | completed + failed ≤ total; "completed" exactly when total > 0 and completed + failed ≥ total, which is exactly when total > 0 and there is no current track; an empty album is "downloading" with zero counts |
| JobStore.AggregateCurrent | backend/utils/job_store.py:167-177 | the current track is None exactly when every member is finished; otherwise it is an unfinished member with the greatest `updated_at` |
| JobStore.LatestActive | backend/utils/job_store.py:167-177 | the first of the unfinished members sorted by `updated_at` descending is unfinished and updated no earlier than any other unfinished member; there is none exactly when every member is finished |
| Orchestrator.NormalizeLocation | backend/app.py:389-390 | the location is "navidrome" exactly when "navidrome" was asked for, else "local" |
| Orchestrator.ClampLimit | backend/app.py:328-329 | the limit lies in [1, 10]; a falsy limit gives 5; other values are clamped |
| Orchestrator.Basename | backend/app.py:244 | `os.path.basename` is a slash-free suffix of the path |
| Orchestrator.Apply | backend/app.py:120-262 | one `upsert_job` call performs the first write of what remains to be done |
| Orchestrator.Finish | backend/app.py:195-255 | the completion step writes `FinishWrites` |
| Orchestrator.DownloadAndProcess | backend/app.py:120-262 | `download_and_process` leaves the store as the replay of `ForwardWrites` |
| Orchestrator.ForwardPrepareLocation | backend/app.py:141-255 | the task from the preparing step on writes the rest of `ForwardWrites` |
| Orchestrator.ForwardSearchAndDownload | backend/app.py:160-255 | the task from the download step on writes the rest of `ForwardWrites` |
| Orchestrator.ForwardApplyMetadata | backend/app.py:185-255 | the task from the tagging step on writes the rest of `ForwardWrites` |
| Orchestrator.DownloadAlbumTrack | backend/app.py:631-635 | an album track runs `download_and_process`, and its row keeps its album id |
| Orchestrator.DownloadTrack | backend/app.py:382-408 | without the catalogue service, 500 and no write; otherwise the queued row and the "Download started to …" response |
| Orchestrator.QueueWrites | backend/app.py:613-621 | one queued write per album track, in album order |
| Orchestrator.QueueTracks | backend/app.py:613-621 | the loop over the tracks performs `QueueWrites` |
| Orchestrator.DownloadAlbum | backend/app.py:577-628 | 500 without the service, 404 for a missing album, and no write on either failure; otherwise the meta-job and track writes and the response with the track count |
| Orchestrator.GetAlbumDownloadStatus | backend/app.py:639-661 | 404 exactly when there is no meta-job; otherwise status and counts from the aggregate that excludes the meta-job, names and track ids from the payload, and a total that falls back to the aggregate when missing or 0 |
| Orchestrator.DropTrailingSlashes | backend/app.py:727 | the result is a prefix of the path |
| Orchestrator.DirName | backend/app.py:727 | `os.path.dirname` is a prefix of the path |
| Orchestrator.AsciiOnly | backend/app.py:732 | dropping non-ASCII characters keeps ASCII text unchanged and is empty exactly when nothing was ASCII |
| Orchestrator.AsciiName | backend/app.py:732 | the ASCII filename is never empty, is ASCII, and equals an all-ASCII name |
| Orchestrator.FileGuard | backend/app.py:699-748 | a file is served exactly for a completed job whose existing file's basename equals the compared name; 404 "Download not found" for an unknown job, 400 for an unfinished one, 404 "File not found" without an existing file, and 400 "Invalid filename. Expected: …, Got: …" for another name; temp files are marked for deletion |
| Orchestrator.DownloadFileGuard | backend/app.py:699-748 | the handler: a file is served exactly for a completed job whose existing file's basename equals the unquoted `filename` it receives; 404 for an unknown job and 400 for an unfinished one; temp files are marked for deletion |
| Orchestrator.FileRequest | backend/app.py:699-722 | as written: the framework decodes the query value and the handler decodes it again, so a file is served exactly when the twice-decoded query is its basename |
| Orchestrator.FileRequestOnce | backend/app.py:699-722 | corrected: a file is served exactly when the once-decoded query is its basename, and it is the job's file |
| Orchestrator.FileRequestDecodesTwice | backend/app.py:241-255 | as written, the published link of a completed job is served exactly when unquoting its basename leaves it unchanged |
| Orchestrator.DoubleDecodeRefused | backend/app.py:715-722 | a query whose double decoding differs from the basename is refused with 400 "Invalid filename. Expected: <basename>, Got: <decoded>" |
| Orchestrator.EscapedNameDecodes | backend/app.py:244-246 | quoting a name holding `%XY` escapes only its `%`, and decoding that twice turns `%XY` into its character, shortening the name |
| Orchestrator.EscapedNameRefused | backend/app.py:241-255 | as written, a completed file whose basename holds an ASCII escape `%XY` (e.g. `a%41.mp3`) is refused through its own link with the 400 that names the decoded `aA.mp3` |
| Orchestrator.PercentRoundTrip | backend/app.py:246 | the `%`-escaping codec used for the counterexample decodes what it encodes |
| Orchestrator.LifecycleOne | backend/app.py:120-262 | a single terminal write is a lifecycle |
| Orchestrator.LifecycleCons | backend/app.py:120-262 | a step write with no lower progress, followed by a lifecycle, is a lifecycle |
| Orchestrator.LifecycleFinalRow | backend/utils/job_store.py:77-98 | after a lifecycle the job's row shows the last write; a completed job has stage "completed" and its file; a link the last write supplies is the row's; a failed job keeps the stage of the step before |
| Orchestrator.LifecycleEnds | backend/app.py:120-262 | a run ends with its terminal write for the job, and the write before it is a progress step of the same job |
| Orchestrator.FinalRow | backend/utils/job_store.py:77-98 | after writes that end with a terminal write, the row shows that write, with its link when it supplies one; a failed job keeps the stage of the progress step before |
| Orchestrator.AppendTerminalRow | backend/utils/job_store.py:77-98 | a terminal write decides status, message and progress, for completion stage and file, and the link when it supplies one |
| Orchestrator.AppendStepThenError | backend/app.py:134-138 | an error right after a step leaves the step's stage in the row |
| Orchestrator.TerminalRow | backend/utils/job_store.py:84 | a terminal upsert sets progress; completion sets stage and file; a supplied link replaces the old one; an error keeps the old stage |
| Orchestrator.StepRow | backend/utils/job_store.py:84 | a step upsert sets the stage |
| Orchestrator.FinishLifecycle | backend/app.py:195-255 | the completion writes are a lifecycle |
| Orchestrator.ApplyMetadataLifecycle | backend/app.py:185-255 | the writes from tagging on are a lifecycle with strictly rising progress |
| Orchestrator.SearchAndDownloadLifecycle | backend/app.py:160-255 | the writes from the download on are a lifecycle with strictly rising progress |
| Orchestrator.PrepareLocationLifecycle | backend/app.py:141-255 | the writes from preparing on are a lifecycle with strictly rising progress |
| Orchestrator.ForwardLifecycle | backend/app.py:120-262 | every run of `download_and_process` writes only to its job, steps with strictly rising progress from 10, and ends with one terminal write |
| Orchestrator.FinishCompletes | backend/app.py:195-255 | the completion step ends in "completed" or "error", and in "completed" exactly when the library copy returned or the target is local |
| Orchestrator.ApplyMetadataCompletes | backend/app.py:185-255 | from tagging on: completed exactly when tagging and, for Navidrome, the copy returned |
| Orchestrator.SearchAndDownloadCompletes | backend/app.py:160-255 | from the download on: completed exactly when the download succeeded and the later steps returned |
| Orchestrator.PrepareLocationCompletes | backend/app.py:141-255 | from preparing on: completed exactly when preparing returned and the later steps succeeded |
| Orchestrator.ForwardCompletesIff | backend/app.py:120-262 | every run ends with "completed" or "error", including raised exceptions; "completed" exactly when every step succeeded |
| Orchestrator.ForwardSuccessPath | backend/app.py:123-254 | a successful run writes stages fetching, preparing, downloading, tagging, (copying), completed with progress 10, 15, 30, 85, (90), 100 |
| Orchestrator.ApplyMetadataSplit | backend/app.py:185-255 | when tagging returns, the tagging step precedes the completion writes |
| Orchestrator.ForwardTailSplit | backend/app.py:160-255 | a successful tail is the download and tagging steps, then the completion writes |
| Orchestrator.ForwardSuccessSplit | backend/app.py:123-255 | a successful run is the four steps, then the completion writes |
| Orchestrator.PrepareLocationSplit | backend/app.py:141-255 | when the later calls succeed, the run from the preparing step is that step, the download and tagging steps, then the completion writes |
| Orchestrator.ForwardSuccessLast | backend/app.py:123-255 | a run whose calls up to tagging succeed ends with the last completion write |
| Orchestrator.ForwardStepsStages | backend/app.py:123-189 | the four steps have stages fetching, preparing, downloading, tagging and progress 10, 15, 30, 85 |
| Orchestrator.FinishStages | backend/app.py:195-255 | the completion writes have stages (copying,) completed and progress (90,) 100 |
| Orchestrator.LibraryFinishStages | backend/app.py:195-240 | with a returned copy the library completion writes have stages copying, completed and progress 90, 100 |
| Orchestrator.LocalFinishStages | backend/app.py:241-255 | the local completion write has stage completed and progress 100 |
| Orchestrator.LibraryFinishLast | backend/app.py:195-233 | a returned copy ends the library completion with a completed write at the target path |
| Orchestrator.UnscannedMessage | backend/app.py:226-233 | the message of a copy whose scan failed opens with the "scan may need manual trigger" notice |
| Orchestrator.ForwardErrorKeepsStage | backend/app.py:134-138 | after a failed run the row is "error" with progress 0 and keeps the stage of the last step, never "completed" |
| Orchestrator.LocalDownloadIsServable | backend/app.py:241-255 | after a successful local run the row is completed with the downloaded file and the link `api/download/file/<id>?filename=<quoted basename>`, and the endpoint, decoding that link's query once, serves the downloaded file |
| Orchestrator.CompletedJobServes | backend/app.py:699-748 | with a single decoding, a completed job whose file exists is served, with that file, through the quoted basename of the file, whatever characters the name holds |
| Orchestrator.ScanFailureStillCompletes | backend/app.py:217-233 | a failed library scan still completes the job with the target path and the "scan may need manual trigger" message |
| Orchestrator.AlbumTracksQueued | backend/app.py:613-621 | after `download_album` every track's row is queued at stage "queued", progress 0, with the album id |
| Orchestrator.AlbumMetaAfterQueue | backend/app.py:592-606 | the meta-job holds the payload with album name, artist, track ids in album order and the track count |
| Orchestrator.AlbumStatusAfterQueue | backend/app.py:577-661 | right after queueing a non-empty album its status is "downloading" with a current track, the album's name and artist, its track count and its track ids |
| Orchestrator.StatusWithActiveTrack | backend/app.py:640-661 | with the meta job holding the album payload and an unfinished track in the group, the status is "downloading" with a current track and the payload's name, artist, track count and track ids |
| Orchestrator.ManualTrackSpec | backend/app.py:437-466 | manual metadata fails exactly without a stripped name and artist or with a bad track number; a built track carries the stripped name and artist, trimmed non-empty artists, album and album artist given or else "YouTube", the given artwork first, track number 1 by default, duration 0 and the page URL |
| Orchestrator.ManualTrackNumberRoundTrip | backend/app.py:459 | a decimal track number reads back as that number |
| Orchestrator.VideoProblem | backend/app.py:417-426 | no problem exactly when the video info was read and has a video id |
| Orchestrator.ReverseDownloadAndProcess | backend/app.py:411-521 | `reverse_download_and_process` leaves the store as the replay of `ReverseWrites` |
| Orchestrator.ReverseDescribeTrack | backend/app.py:429-521 | the task from the track description on writes the rest of `ReverseWrites` |
| Orchestrator.ReverseLookUpTrack | backend/app.py:429-521 | the task from the catalogue lookup on writes the rest |
| Orchestrator.ReversePrepareFile | backend/app.py:468-521 | the task from preparing on writes the rest |
| Orchestrator.ReverseDownloadVideo | backend/app.py:476-521 | the task from the download on writes the rest |
| Orchestrator.ReverseTagFile | backend/app.py:483-518 | the task from tagging on writes the rest |
| Orchestrator.ManualMetadataRequired | backend/app.py:437-444 | without a catalogue id, missing name or artist ends the job after one step with the manual-metadata error |
| Orchestrator.TagFileLifecycle | backend/app.py:483-518 | the writes from tagging on are a lifecycle |
| Orchestrator.DownloadVideoLifecycle | backend/app.py:476-518 | the writes from the download on are a lifecycle |
| Orchestrator.PrepareFileLifecycle | backend/app.py:468-518 | the writes from preparing on are a lifecycle |
| Orchestrator.LookUpTrackLifecycle | backend/app.py:429-518 | the writes from the catalogue lookup on are a lifecycle |
| Orchestrator.DescribeTrackLifecycle | backend/app.py:429-518 | the writes from the track description on are a lifecycle |
| Orchestrator.ReverseLifecycle | backend/app.py:411-521 | every run of `reverse_download_and_process` writes only to its job, with progress never falling from 10, and ends with one terminal write |
| Orchestrator.TagFileCompletes | backend/app.py:483-518 | from tagging on: completed exactly when tagging and, for Navidrome, the copy returned |
| Orchestrator.DownloadVideoCompletes | backend/app.py:476-518 | from the download on: completed exactly when the download and the later steps succeeded |
| Orchestrator.PrepareFileCompletes | backend/app.py:468-518 | from preparing on: completed exactly when preparing and the later steps succeeded |
| Orchestrator.LookUpTrackCompletes | backend/app.py:429-518 | from the catalogue lookup on: completed exactly when the track was found and the later steps succeeded |
| Orchestrator.DescribeTrackCompletes | backend/app.py:429-518 | completed exactly when the catalogue track or valid manual metadata was obtained and the later steps succeeded |
| Orchestrator.ReverseCompletesIff | backend/app.py:411-521 | every run ends with "completed" or "error"; "completed" exactly when the video id, the track description and every later step succeeded |

## Left out

- `SequenceMatcher.ratio` and `math.exp` are parameters with the properties the scorer relies on: the ratio lies in [0, 1], and the exponential is 1 at 0, in (0, 1] on non-positive arguments, and monotone. Their actual values are not modelled.
- The rank strength read from `YTMUSIC_RANK_STRENGTH` is a parameter, like the default it falls back to.
- Scores are exact reals. Floating point, and the `round(score, 3)` applied to each candidate's score, are not modelled; sorting and the threshold use the unrounded score.
- Lower-casing is ASCII only, and `\w` (the word boundary of the feat rule) is ASCII letters, digits and `_` plus every non-ASCII character that is not whitespace, which approximates Python's Unicode `\w`. `\s` and `str.strip` use Python's whitespace set.
- Normalizer.RemoveBracketed: the bracketed-meta regexes are modelled as removing an opening bracket, one of the meta words and everything up to the next closing bracket. The contract and its lemma state that this adds nothing but spaces and changes nothing where there is no match; what a match removes is given only by the definition.
- `int()` is modelled on ASCII digits with an optional sign, outer whitespace and single underscores between digits. Unicode digits are not modelled.
- A manual track number given as a JSON number rather than text is not modelled.
- The `repr` quoting of the text in `int()`'s error message is not modelled: the message is built from the raw text.
- Provider calls (YouTube Music search, yt-dlp search and download, video info extraction, the catalogue lookups) are inputs. So are the filesystem probing for the downloaded file and the post-download title and artist check, which only logs.
- A provider error key present with the value `None` is treated like an absent key.
- Metadata tagging and the library copy and scan (`backend/services/metadata.py` and the Navidrome service) are not part of this model. Their outcomes, returned or raised, are inputs; in particular the manual track that is built is not handed to a modelled tagger.
- A web entry's duration that is not an integer is carried as `None` on the candidate.
- `backend/config.py` (environment and directories) is not part of this model. The temp directory path is a parameter of the file guard.
- SQLite mechanics (connections, WAL, the column migration, JSON text) are not modelled. The table is a map plus the row insertion order, and the payload is an opaque value that either decodes or does not.
- Ties in `ORDER BY updated_at DESC` are broken by insertion order. SQLite leaves their order unspecified.
- The clock is a parameter `now`. All writes of one task share one timestamp, since only the final rows are compared.
- Exceptions raised by `upsert_job` itself, and a download result without `file_path`, are not modelled.
- Concurrency (background tasks running side by side, concurrent writers) is not modelled. Jobs run one after the other.
- URL quoting (`quote` with `safe=''`) is a parameter of which only `unquote(quote(s)) == s` is used; the framework's decoding of the `filename` query value is that same `unquote`, so its `+`-as-space rule, which never applies to `quote`'s output, is not modelled. The `Content-Disposition` header's own quoting, the `FileResponse` and the delayed `cleanup_temp_file` deletion are not modelled.
- Orchestrator.PercentCodec: the concrete codec behind the finding escapes only `%` and decodes only escapes below 0x80 as single characters. It agrees with `quote` and `unquote` on names made of letters, digits, `.`, `-`, `_`, `~` and `%XY` escapes of ASCII characters, which is all the counterexample needs.
- FastAPI routing and the `reverse_download` endpoint are not modelled. That endpoint builds its job id from Python's per-process `hash()`, so the job id is an input of `ReverseDownloadAndProcess`.
- Scoring.ArtistScoreBounds: the score for a non-empty list is stated only through its bounds. The exact value, best plus `Bonus(matched)` clamped, is the definition of `ArtistScore`.
- Orchestrator.ManualTrackSpec: the release date, and which artist parts appear, are stated only through their shape (stripped, non-empty).
- Orchestrator.DownloadFileGuard: the 404 "File not found" and the 400 "Invalid filename" texts are stated on `FileGuard`, which the handler calls after its `unquote`, not repeated on the handler.

## Findings

| source | as written | input that shows it | evidently intended | confidence | as-written member | corrected member |
|---|---|---|---|---|---|---|
| backend/app.py:700-722 | the `filename` query value, already percent-decoded by the framework, is passed through `unquote` a second time before it is compared with the file's base name | a local download saved as `a%41.mp3`: its link carries `filename=a%2541.mp3`, the handler receives `a%41.mp3`, decodes it to `aA.mp3` and answers 400 "Invalid filename. Expected: a%41.mp3, Got: aA.mp3" | compare the base name with the query value as received, so that every published link serves its file | not executed | Orchestrator.EscapedNameRefused | Orchestrator.CompletedJobServes |
