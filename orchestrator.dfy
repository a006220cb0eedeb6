/**
 * The download endpoints and background tasks of the API: each drives jobs through a fixed
 * sequence of `upsert_job` calls. The collaborators (catalogue lookup, the YouTube download,
 * tagging, the library copy and scan) are replaced by their outcomes, given as inputs.
 */
module Orchestrator {
  import opened Wrappers
  import opened Strings
  import opened JobStore

  // ---- collaborator outcomes ----

  /** What a collaborator call did: returned a value, or raised an exception with this text. */
  datatype Outcome<T> = Returned(value: T) | Raised(msg: string)

  /** A download result: the downloaded file, or `success` False with an optional error text. */
  datatype Download = Downloaded(filePath: string) | DownloadFailed(error: Option<string>)

  /** The library copy: the target path, and whether the library scan reported success. */
  datatype Finalize = Finalize(targetPath: string, scanned: bool, scanError: Option<string>)

  /** The outcomes of one `download_and_process` run, step by step. */
  datatype ForwardRun = ForwardRun(
    details: Outcome<bool>, prepared: Outcome<()>, download: Outcome<Download>,
    tagged: Outcome<()>, copy: Outcome<Finalize>)

  /** `urllib.parse.quote(s, safe='')` and `unquote`: `unquote` undoes `quote`. */
  datatype UrlCodec = UrlCodec(quote: string -> string, unquote: string -> string)
  type Codec = c: UrlCodec | forall s :: c.unquote(c.quote(s)) == s
    witness UrlCodec(s => s, s => s)

  predicate IsHexDigit(ch: char) {
    '0' <= ch <= '9' || 'A' <= ch <= 'F' || 'a' <= ch <= 'f'
  }

  function HexValue(ch: char): (v: nat)
    requires IsHexDigit(ch)
    ensures v < 16
  {
    if ch <= '9' then ch as nat - '0' as nat
    else if ch <= 'F' then ch as nat - 'A' as nat + 10
    else ch as nat - 'a' as nat + 10
  }

  /** The character of the escape `%XY`. */
  function EscapeChar(x: char, y: char): char
    requires IsHexDigit(x) && IsHexDigit(y)
  {
    var v := 16 * HexValue(x) + HexValue(y);
    assert v < 256;
    v as char
  }

  /** `quote(s, safe='')` on text whose only character it escapes is `%`: each `%` becomes `%25`. */
  function PercentQuote(s: string): (r: string)
    ensures |r| >= |s|
  {
    if s == [] then [] else (if s[0] == '%' then "%25" else [s[0]]) + PercentQuote(s[1..])
  }

  /** `unquote(s)` for escapes below 0x80: each `%XY` with two hex digits becomes that character. */
  function PercentUnquote(s: string): string
    decreases |s|
  {
    if s == [] then []
    else if |s| >= 3 && s[0] == '%' && IsHexDigit(s[1]) && IsHexDigit(s[2]) then
      [EscapeChar(s[1], s[2])] + PercentUnquote(s[3..])
    else [s[0]] + PercentUnquote(s[1..])
  }

  /** Decoding undoes encoding. */
  lemma {:induction false} PercentRoundTrip(s: string)
    ensures PercentUnquote(PercentQuote(s)) == s
    decreases |s|
  {
    if s != [] {
      var rest := PercentQuote(s[1..]);
      PercentRoundTrip(s[1..]);
      if s[0] == '%' {
        var q := "%25" + rest;
        assert q[0] == '%' && q[1] == '2' && q[2] == '5' && q[3..] == rest;
        assert PercentUnquote(q) == ['%'] + PercentUnquote(rest);
      } else {
        var q := [s[0]] + rest;
        assert q[1..] == rest;
        assert PercentUnquote(q) == [s[0]] + PercentUnquote(rest);
      }
      assert s == [s[0]] + s[1..];
    }
  }

  lemma {:induction false} PercentQuoteAppend(a: string, b: string)
    ensures PercentQuote(a + b) == PercentQuote(a) + PercentQuote(b)
    decreases |a|
  {
    if a != [] {
      assert (a + b)[1..] == a[1..] + b;
      PercentQuoteAppend(a[1..], b);
    } else {
      assert a + b == b;
    }
  }

  lemma {:induction false} PercentPlain(s: string)
    requires '%' !in s
    ensures PercentQuote(s) == s && PercentUnquote(s) == s
    decreases |s|
  {
    if s != [] {
      NotInTail('%', s);
      PercentPlain(s[1..]);
      ConsAppend(s, []);
      EmptyAppend(s[1..]);
      PercentUnquotePlainChar(s[0], s[1..]);
    }
  }

  lemma PercentUnquoteEscape(x: char, y: char, rest: string)
    requires IsHexDigit(x) && IsHexDigit(y)
    ensures PercentUnquote(['%', x, y] + rest) == [EscapeChar(x, y)] + PercentUnquote(rest)
  {
    assert (['%', x, y] + rest)[3..] == rest;
  }

  lemma PercentUnquotePlainChar(ch: char, rest: string)
    requires ch != '%'
    ensures PercentUnquote([ch] + rest) == [ch] + PercentUnquote(rest)
  {
    assert ([ch] + rest)[1..] == rest;
  }

  /** The `%`-only codec, a `Codec` by `PercentRoundTrip`. */
  function PercentCodec(): (c: Codec)
    ensures forall s :: c.quote(s) == PercentQuote(s) && c.unquote(s) == PercentUnquote(s)
  {
    PercentRoundTrips();
    UrlCodec(s => PercentQuote(s), s => PercentUnquote(s))
  }

  lemma PercentRoundTrips()
    ensures forall s :: PercentUnquote(PercentQuote(s)) == s
  {
    forall s ensures PercentUnquote(PercentQuote(s)) == s { PercentRoundTrip(s); }
  }

  datatype HttpError = HttpError(code: int, detail: string)

  // ---- small validators ----

  /** An unknown or missing location becomes "local". */
  function NormalizeLocation(location: Option<string>): (r: string)
    ensures r == "local" || r == "navidrome"
    ensures r == "navidrome" <==> location == Some("navidrome")
  {
    if location == Some("local") || location == Some("navidrome") then location.value else "local"
  }

  function LocationMessage(location: string): string {
    if location == "local" then "local downloads folder" else "Navidrome server"
  }

  /** The pick-list limit: 5 when absent or 0, otherwise clamped to [1, 10]. */
  function ClampLimit(limit: Option<int>): (r: int)
    ensures 1 <= r <= 10
    ensures limit.None? || limit == Some(0) ==> r == 5
    ensures limit.Some? && 1 <= limit.value <= 10 ==> r == limit.value
    ensures limit.Some? && limit.value > 10 ==> r == 10
    ensures limit.Some? && limit.value < 0 ==> r == 1
  {
    var l := if limit.None? || limit.value == 0 then 5 else limit.value;
    if l > 10 then 10 else if l < 1 then 1 else l
  }

  /** `os.path.basename`: the text after the last `/`. */
  function Basename(path: string): (r: string)
    ensures '/' !in r
    ensures |r| <= |path| && r == path[|path| - |r|..]
  {
    if path == [] || path[|path| - 1] == '/' then []
    else Basename(path[..|path| - 1]) + [path[|path| - 1]]
  }

  // ---- the writes ----

  function Processing(message: string, stage: string, progress: int): Update {
    Update("processing", message, Some(stage), Some(progress), None, None, None, None, None)
  }

  /** An error write: status "error", progress 0, and no stage, so the stored stage stays. */
  function Failed(message: string): Update {
    Update("error", message, None, Some(0), None, None, None, None, None)
  }

  function Completed(message: string, filePath: string, downloadUrl: Option<string>): Update {
    Update("completed", message, Some("completed"), Some(100), Some(filePath), downloadUrl, None, None, None)
  }

  function Queued(message: string, albumId: Option<string>, payload: Option<Payload>): Update {
    Update("queued", message, Some("queued"), Some(0), None, None, None, albumId, payload)
  }

  /** The browser download link of a finished local job. */
  function DownloadUrl(c: Codec, jobId: string, filePath: string): string {
    "api/download/file/" + jobId + "?filename=" + c.quote(Basename(filePath))
  }

  function ScanMessage(f: Finalize): string {
    if f.scanned then "Track successfully added to Navidrome library"
    else "Track added to library (scan may need manual trigger): " + f.scanError.GetOr("")
  }

  /** The writes after the tagging step: the library copy for "navidrome", the download link otherwise. */
  function FinishWrites(c: Codec, id: string, location: string, filePath: string, copy: Outcome<Finalize>): seq<Write> {
    if location == "navidrome" then
      [Write(id, Processing("Copying to Navidrome library...", "copying", 90))]
      + (if copy.Raised? then [Write(id, Failed("Failed to copy to Navidrome: " + copy.msg))]
         else [Write(id, Completed(ScanMessage(copy.value), copy.value.targetPath, None))])
    else [Write(id, Completed("Track ready for download", filePath, Some(DownloadUrl(c, id, filePath))))]
  }

  function DownloadError(error: Option<string>): string {
    "Download failed: " + error.GetOr("Unknown error")
  }

  // ---- the forward flow: a catalogue track searched for and downloaded ----

  /** The steps of `download_and_process`, in order; each opens with a progress write. */
  datatype ForwardStep = FetchDetails | PrepareLocation | SearchAndDownload | ApplyMetadata

  /** How many steps follow `step`. */
  function ForwardRank(step: ForwardStep): nat {
    match step
    case FetchDetails => 3
    case PrepareLocation => 2
    case SearchAndDownload => 1
    case ApplyMetadata => 0
  }

  /** Tagging starts only from a downloaded file. */
  predicate ForwardReaches(run: ForwardRun, step: ForwardStep) {
    step == ApplyMetadata ==> run.download.Returned? && run.download.value.Downloaded?
  }

  /**
   * The writes of `download_and_process` from `step` on, for the given outcomes: the step's
   * progress write, then an error write if its call raised or came back empty, or the next step.
   */
  function ForwardFrom(c: Codec, id: string, location: string, run: ForwardRun, step: ForwardStep): seq<Write>
    requires ForwardReaches(run, step)
    decreases ForwardRank(step)
  {
    match step
    case FetchDetails =>
      [Write(id, Processing("Fetching track info...", "fetching", 10))]
      + (if run.details.Raised? then [Write(id, Failed("Error: " + run.details.msg))]
         else if !run.details.value then [Write(id, Failed("Could not fetch track information"))]
         else ForwardFrom(c, id, location, run, PrepareLocation))
    case PrepareLocation =>
      [Write(id, Processing("Preparing download location...", "preparing", 15))]
      + (if run.prepared.Raised? then [Write(id, Failed("Error: " + run.prepared.msg))]
         else ForwardFrom(c, id, location, run, SearchAndDownload))
    case SearchAndDownload =>
      [Write(id, Processing("Searching YouTube and downloading...", "downloading", 30))]
      + (if run.download.Raised? then [Write(id, Failed("Error: " + run.download.msg))]
         else if run.download.value.DownloadFailed? then [Write(id, Failed(DownloadError(run.download.value.error)))]
         else ForwardFrom(c, id, location, run, ApplyMetadata))
    case ApplyMetadata =>
      [Write(id, Processing("Applying metadata...", "tagging", 85))]
      + (if run.tagged.Raised? then [Write(id, Failed("Error: " + run.tagged.msg))]
         else FinishWrites(c, id, location, run.download.value.filePath, run.copy))
  }

  /** The writes of `download_and_process(track_id, location, ...)` for the given outcomes. */
  function ForwardWrites(c: Codec, id: string, location: string, run: ForwardRun): seq<Write> {
    ForwardFrom(c, id, location, run, FetchDetails)
  }

  /**
   * One upsert: the first of the writes `todo` still to be made. The rest of them, replayed on
   * the new table, give the same table as all of them replayed on the old one.
   */
  method Apply(store: Store, w: Write, ghost todo: seq<Write>, now: int)
    requires store.Valid()
    requires todo != [] && todo[0] == w
    modifies store
    ensures store.Valid()
    ensures Replay(Table(store.rows, store.ids), todo[1..], now) == Replay(Table(old(store.rows), old(store.ids)), todo, now)
  {
    assert todo == [w] + todo[1..];
    ReplayCons(Table(store.rows, store.ids), w, todo[1..], now);
    store.Upsert(w.id, w.u, now);
  }

  /** The steps after tagging: copy into the library and scan, or publish the download link. */
  method Finish(store: Store, c: Codec, trackId: string, location: string, filePath: string, copy: Outcome<Finalize>, now: int)
    requires store.Valid()
    modifies store
    ensures store.Valid()
    ensures Table(store.rows, store.ids) == Replay(Table(old(store.rows), old(store.ids)), FinishWrites(c, trackId, location, filePath, copy), now)
  {
    ghost var todo := FinishWrites(c, trackId, location, filePath, copy);
    if location == "navidrome" {
      Apply(store, Write(trackId, Processing("Copying to Navidrome library...", "copying", 90)), todo, now);
      todo := todo[1..];
      if copy.Raised? {
        Apply(store, Write(trackId, Failed("Failed to copy to Navidrome: " + copy.msg)), todo, now);
      } else {
        Apply(store, Write(trackId, Completed(ScanMessage(copy.value), copy.value.targetPath, None)), todo, now);
      }
    } else {
      var url := DownloadUrl(c, trackId, filePath);
      Apply(store, Write(trackId, Completed("Track ready for download", filePath, Some(url))), todo, now);
    }
  }

  /** `download_and_process`: one job driven from "fetching" to "completed" or "error". */
  method DownloadAndProcess(store: Store, c: Codec, trackId: string, location: string, run: ForwardRun, now: int)
    requires store.Valid()
    modifies store
    ensures store.Valid()
    ensures Table(store.rows, store.ids) == Replay(Table(old(store.rows), old(store.ids)), ForwardWrites(c, trackId, location, run), now)
  {
    ghost var todo := ForwardFrom(c, trackId, location, run, FetchDetails);
    Apply(store, Write(trackId, Processing("Fetching track info...", "fetching", 10)), todo, now);
    todo := todo[1..];
    if run.details.Raised? {
      Apply(store, Write(trackId, Failed("Error: " + run.details.msg)), todo, now);
      return;
    }
    if !run.details.value {
      Apply(store, Write(trackId, Failed("Could not fetch track information")), todo, now);
      return;
    }
    ForwardPrepareLocation(store, c, trackId, location, run, now);
  }

  /** The steps of `download_and_process` from the preparation of the download location on. */
  method ForwardPrepareLocation(store: Store, c: Codec, trackId: string, location: string, run: ForwardRun, now: int)
    requires store.Valid()
    modifies store
    ensures store.Valid()
    ensures Table(store.rows, store.ids) == Replay(Table(old(store.rows), old(store.ids)), ForwardFrom(c, trackId, location, run, PrepareLocation), now)
  {
    ghost var todo := ForwardFrom(c, trackId, location, run, PrepareLocation);
    Apply(store, Write(trackId, Processing("Preparing download location...", "preparing", 15)), todo, now);
    todo := todo[1..];
    if run.prepared.Raised? {
      Apply(store, Write(trackId, Failed("Error: " + run.prepared.msg)), todo, now);
      return;
    }
    ForwardSearchAndDownload(store, c, trackId, location, run, now);
  }

  /** The steps of `download_and_process` from the YouTube search on. */
  method ForwardSearchAndDownload(store: Store, c: Codec, trackId: string, location: string, run: ForwardRun, now: int)
    requires store.Valid()
    modifies store
    ensures store.Valid()
    ensures Table(store.rows, store.ids) == Replay(Table(old(store.rows), old(store.ids)), ForwardFrom(c, trackId, location, run, SearchAndDownload), now)
  {
    ghost var todo := ForwardFrom(c, trackId, location, run, SearchAndDownload);
    Apply(store, Write(trackId, Processing("Searching YouTube and downloading...", "downloading", 30)), todo, now);
    todo := todo[1..];
    if run.download.Raised? {
      Apply(store, Write(trackId, Failed("Error: " + run.download.msg)), todo, now);
      return;
    }
    var result := run.download.value;
    if result.DownloadFailed? {
      Apply(store, Write(trackId, Failed(DownloadError(result.error))), todo, now);
      return;
    }
    ForwardApplyMetadata(store, c, trackId, location, run, now);
  }

  /** The steps of `download_and_process` from the tagging on. */
  method ForwardApplyMetadata(store: Store, c: Codec, trackId: string, location: string, run: ForwardRun, now: int)
    requires store.Valid()
    requires run.download.Returned? && run.download.value.Downloaded?
    modifies store
    ensures store.Valid()
    ensures Table(store.rows, store.ids) == Replay(Table(old(store.rows), old(store.ids)), ForwardFrom(c, trackId, location, run, ApplyMetadata), now)
  {
    ghost var todo := ForwardFrom(c, trackId, location, run, ApplyMetadata);
    Apply(store, Write(trackId, Processing("Applying metadata...", "tagging", 85)), todo, now);
    todo := todo[1..];
    if run.tagged.Raised? {
      Apply(store, Write(trackId, Failed("Error: " + run.tagged.msg)), todo, now);
      return;
    }
    Finish(store, c, trackId, location, run.download.value.filePath, run.copy, now);
  }

  /** `download_album_track`: the track download of an album; the row keeps its album id. */
  method DownloadAlbumTrack(store: Store, c: Codec, trackId: string, location: string, albumId: string, run: ForwardRun, now: int)
    requires store.Valid()
    requires trackId in store.rows && store.rows[trackId].albumId == Some(albumId)
    modifies store
    ensures store.Valid()
    ensures Table(store.rows, store.ids) == Replay(Table(old(store.rows), old(store.ids)), ForwardWrites(c, trackId, location, run), now)
    ensures trackId in store.rows && store.rows[trackId].albumId == Some(albumId)
  {
    ghost var t0 := Table(store.rows, store.ids);
    DownloadAndProcess(store, c, trackId, location, run, now);
    ForwardLifecycle(c, trackId, location, run);
    ReplayKeepsAlbum(t0, ForwardWrites(c, trackId, location, run), now, trackId);
  }

  // ---- the queueing endpoints ----

  const NotConfigured: HttpError := HttpError(500, "Spotify service not configured")

  datatype Accepted = Accepted(status: string, message: string, jobId: string, location: string)

  /**
   * `POST /api/download`: without a catalogue service nothing is written; otherwise the job is
   * queued and the background download is due to run with the normalized location.
   */
  method DownloadTrack(store: Store, trackId: string, location: Option<string>, configured: bool, now: int)
    returns (r: Result<Accepted, HttpError>)
    requires store.Valid()
    modifies store
    ensures store.Valid()
    ensures !configured ==> r == Failure(NotConfigured) && store.rows == old(store.rows) && store.ids == old(store.ids)
    ensures configured ==>
      var place := LocationMessage(NormalizeLocation(location));
      && r == Success(Accepted("queued", "Download started to " + place, trackId, NormalizeLocation(location)))
      && store.rows == Upserted(old(store.rows), trackId, Queued("Download queued for " + place, None, None), now)
      && store.ids == UpsertedIds(old(store.rows), old(store.ids), trackId)
  {
    if !configured {
      return Failure(NotConfigured);
    }
    var loc := NormalizeLocation(location);
    var place := LocationMessage(loc);
    store.Upsert(trackId, Queued("Download queued for " + place, None, None), now);
    r := Success(Accepted("queued", "Download started to " + place, trackId, loc));
  }

  /** An album as the catalogue describes it. */
  datatype Album = Album(name: string, artist: string, trackIds: seq<string>)

  function AlbumJobId(albumId: string): string {
    "album:" + albumId
  }

  /** The payload of the album's meta job. */
  function AlbumPayload(albumId: string, album: Album): Payload {
    Payload(Some(albumId), Some(album.name), Some(album.artist), Some(album.trackIds), Some(|album.trackIds|))
  }

  /** One queued row per track of the album, in album order. */
  function QueueWrites(albumId: string, album: Album): (ws: seq<Write>)
    ensures |ws| == |album.trackIds|
    ensures forall k :: 0 <= k < |ws| ==> ws[k].id == album.trackIds[k]
  {
    seq(|album.trackIds|, k requires 0 <= k < |album.trackIds| =>
      Write(album.trackIds[k], Queued("Queued (Album: " + album.name + ")", Some(albumId), None)))
  }

  /** The writes of `POST /api/download/album`: the meta job first, then every track. */
  function AlbumWrites(albumId: string, album: Album): seq<Write> {
    [Write(AlbumJobId(albumId), Queued("Album '" + album.name + "' queued", Some(albumId), Some(AlbumPayload(albumId, album))))]
    + QueueWrites(albumId, album)
  }

  /** The loop of `POST /api/download/album` that queues every track. */
  method QueueTracks(store: Store, albumId: string, a: Album, now: int)
    requires store.Valid()
    modifies store
    ensures store.Valid()
    ensures Table(store.rows, store.ids) == Replay(Table(old(store.rows), old(store.ids)), QueueWrites(albumId, a), now)
  {
    ghost var goal := Replay(Table(store.rows, store.ids), QueueWrites(albumId, a), now);
    ghost var ws := QueueWrites(albumId, a);
    var i := 0;
    while i < |a.trackIds|
      invariant 0 <= i <= |a.trackIds|
      invariant store.Valid()
      invariant Replay(Table(store.rows, store.ids), ws[i..], now) == goal
    {
      var w := Write(a.trackIds[i], Queued("Queued (Album: " + a.name + ")", Some(albumId), None));
      assert ws[i..][0] == w && ws[i..][1..] == ws[i + 1..];
      Apply(store, w, ws[i..], now);
      i := i + 1;
    }
  }

  datatype AlbumAccepted = AlbumAccepted(status: string, message: string, albumId: string, totalTracks: nat)

  /**
   * `POST /api/download/album`: without a catalogue service or without the album nothing is
   * written; otherwise the meta job and one queued job per track.
   */
  method DownloadAlbum(store: Store, albumId: string, location: Option<string>, configured: bool, album: Option<Album>, now: int)
    returns (r: Result<AlbumAccepted, HttpError>)
    requires store.Valid()
    modifies store
    ensures store.Valid()
    ensures !configured ==> r == Failure(NotConfigured)
    ensures configured && album.None? ==> r == Failure(HttpError(404, "Album not found"))
    ensures r.Failure? ==> store.rows == old(store.rows) && store.ids == old(store.ids)
    ensures configured && album.Some? ==>
      && r == Success(AlbumAccepted("queued", "Album '" + album.value.name + "' queued for download to "
                                    + LocationMessage(NormalizeLocation(location)), albumId, |album.value.trackIds|))
      && Table(store.rows, store.ids) == Replay(Table(old(store.rows), old(store.ids)), AlbumWrites(albumId, album.value), now)
  {
    if !configured {
      return Failure(NotConfigured);
    }
    if album.None? {
      return Failure(HttpError(404, "Album not found"));
    }
    var a := album.value;
    var meta := Write(AlbumJobId(albumId), Queued("Album '" + a.name + "' queued", Some(albumId), Some(AlbumPayload(albumId, a))));
    ghost var todo := AlbumWrites(albumId, a);
    assert todo[1..] == QueueWrites(albumId, a);
    Apply(store, meta, todo, now);
    QueueTracks(store, albumId, a, now);
    var place := LocationMessage(NormalizeLocation(location));
    r := Success(AlbumAccepted("queued", "Album '" + a.name + "' queued for download to " + place, albumId, |a.trackIds|));
  }

  // ---- album status ----

  datatype AlbumStatus = AlbumStatus(
    status: string, albumName: Option<string>, artist: Option<string>, totalTracks: int,
    completedTracks: nat, failedTracks: nat, currentTrack: Option<string>, trackIds: seq<string>)

  /**
   * `GET /api/download/album/status/{album_id}`: 404 without a meta job; otherwise the aggregate
   * over the album's jobs other than the meta job, with name, artist and track list from its
   * payload and the payload's track count unless that is absent or zero.
   */
  function GetAlbumDownloadStatus(rows: map<string, Job>, ids: seq<string>, albumId: string): (r: Result<AlbumStatus, HttpError>)
    ensures r.Failure? <==> AlbumJobId(albumId) !in rows
    ensures r.Failure? ==> r.error == HttpError(404, "Album download not found")
    ensures r.Success? ==>
      var agg := AlbumAggregate(rows, ids, albumId, Some(AlbumJobId(albumId)));
      var payload := GetJob(rows, AlbumJobId(albumId)).value.payload.GetOr(EmptyPayload);
      && r.value.status == agg.status && r.value.completedTracks == agg.completed
      && r.value.failedTracks == agg.failed && r.value.currentTrack == agg.current
      && r.value.albumName == payload.albumName && r.value.artist == payload.artist
      && (payload.totalTracks.Some? && payload.totalTracks.value != 0 ==> r.value.totalTracks == payload.totalTracks.value)
      && (payload.totalTracks.None? || payload.totalTracks == Some(0) ==> r.value.totalTracks == agg.total)
      && r.value.trackIds == payload.trackIds.GetOr([])
  {
    var meta := GetJob(rows, AlbumJobId(albumId));
    var agg := AlbumAggregate(rows, ids, albumId, Some(AlbumJobId(albumId)));
    if meta.None? then Failure(HttpError(404, "Album download not found"))
    else
      var payload := meta.value.payload.GetOr(EmptyPayload);
      var total := if payload.totalTracks.Some? && payload.totalTracks.value != 0 then payload.totalTracks.value else agg.total;
      Success(AlbumStatus(agg.status, payload.albumName, payload.artist, total, agg.completed, agg.failed,
                          agg.current, payload.trackIds.GetOr([])))
  }

  // ---- serving a finished file ----

  /** Text with its trailing slashes removed, unless it is nothing but slashes. */
  function DropTrailingSlashes(s: string): (r: string)
    ensures |r| <= |s| && r == s[..|r|]
  {
    if s == [] || s[|s| - 1] != '/' then s
    else if forall k :: 0 <= k < |s| ==> s[k] == '/' then s
    else DropTrailingSlashes(s[..|s| - 1])
  }

  lemma {:induction false} BasenameNoSlash(path: string)
    requires '/' !in path
    ensures Basename(path) == path
    decreases |path|
  {
    if path != [] {
      var front := path[..|path| - 1];
      assert '/' !in front by {
        forall k | 0 <= k < |front| ensures front[k] != '/' { assert front[k] == path[k]; }
      }
      BasenameNoSlash(front);
      assert front + [path[|path| - 1]] == path;
    }
  }

  /** `os.path.dirname`: the text before the last `/`, without trailing slashes. */
  function DirName(path: string): (r: string)
    ensures |r| <= |path| && r == path[..|r|]
  {
    DropTrailingSlashes(path[..|path| - |Basename(path)|])
  }

  /** The name with every non-ASCII character dropped, or "download.mp3" if nothing is left. */
  function AsciiName(name: string): (r: string)
    ensures r != [] && forall k :: 0 <= k < |r| ==> r[k] < 128 as char
    ensures (exists k :: 0 <= k < |name| && name[k] < 128 as char) ==> |r| <= |name|
    ensures (forall k :: 0 <= k < |name| ==> name[k] < 128 as char) && name != [] ==> r == name
  {
    var kept := AsciiOnly(name);
    if kept == [] then "download.mp3" else kept
  }

  function AsciiOnly(s: string): (r: string)
    ensures |r| <= |s|
    ensures forall k :: 0 <= k < |r| ==> r[k] < 128 as char
    ensures r == [] <==> forall k :: 0 <= k < |s| ==> s[k] >= 128 as char
    ensures (forall k :: 0 <= k < |s| ==> s[k] < 128 as char) ==> r == s
  {
    if s == [] then []
    else (if s[0] < 128 as char then [s[0]] else []) + AsciiOnly(s[1..])
  }

  datatype Served = Served(filePath: string, filename: string, deleteAfter: bool)

  /**
   * The checks of `GET /api/download/file/{track_id}` on the name it compares: the job exists, is
   * completed, has a file that exists, and `name` is the file's base name.
   */
  function FileGuard(job: Option<JobView>, name: string, exists_: string -> bool, tempDir: string): (r: Result<Served, HttpError>)
    ensures r.Success? <==>
      && job.Some? && job.value.status == "completed"
      && job.value.filePath.Some? && job.value.filePath.value != [] && exists_(job.value.filePath.value)
      && name == Basename(job.value.filePath.value)
    ensures r.Success? ==>
      && r.value.filePath == job.value.filePath.value
      && r.value.filename == AsciiName(name)
      && (r.value.deleteAfter <==> Contains(r.value.filePath, tempDir) || Contains(DirName(r.value.filePath), "temp"))
    ensures job.None? ==> r == Failure(HttpError(404, "Download not found"))
    ensures job.Some? && job.value.status != "completed" ==> r == Failure(HttpError(400, "File not ready for download"))
    ensures job.Some? && job.value.status == "completed" && !HasExistingFile(job.value, exists_) ==>
      r == Failure(HttpError(404, "File not found"))
    ensures (job.Some? && job.value.status == "completed" && HasExistingFile(job.value, exists_)
             && name != Basename(job.value.filePath.value)) ==>
      r == Failure(HttpError(400, "Invalid filename. Expected: " + Basename(job.value.filePath.value) + ", Got: " + name))
  {
    if job.None? then Failure(HttpError(404, "Download not found"))
    else if job.value.status != "completed" then Failure(HttpError(400, "File not ready for download"))
    else if !HasExistingFile(job.value, exists_) then Failure(HttpError(404, "File not found"))
    else
      var fp := job.value.filePath.value;
      var actual := Basename(fp);
      if actual != name then Failure(HttpError(400, "Invalid filename. Expected: " + actual + ", Got: " + name))
      else Success(Served(fp, AsciiName(name), Contains(fp, tempDir) || Contains(DirName(fp), "temp")))
  }

  /** `file_path` is set, non-empty, and names an existing file. */
  predicate HasExistingFile(job: JobView, exists_: string -> bool) {
    job.filePath.Some? && job.filePath.value != [] && exists_(job.filePath.value)
  }

  /**
   * The handler `download_file` as written: it percent-decodes the `filename` it receives and
   * compares the result with the file's base name.
   */
  function DownloadFileGuard(job: Option<JobView>, filename: string, exists_: string -> bool, c: Codec, tempDir: string): (r: Result<Served, HttpError>)
    ensures r.Success? <==>
      && job.Some? && job.value.status == "completed"
      && job.value.filePath.Some? && job.value.filePath.value != [] && exists_(job.value.filePath.value)
      && c.unquote(filename) == Basename(job.value.filePath.value)
    ensures r.Success? ==>
      && r.value.filePath == job.value.filePath.value
      && r.value.filename == AsciiName(c.unquote(filename))
      && (r.value.deleteAfter <==> Contains(r.value.filePath, tempDir) || Contains(DirName(r.value.filePath), "temp"))
    ensures job.None? ==> r == Failure(HttpError(404, "Download not found"))
    ensures job.Some? && job.value.status != "completed" ==> r == Failure(HttpError(400, "File not ready for download"))
  {
    FileGuard(job, c.unquote(filename), exists_, tempDir)
  }

  /**
   * A request for `...?filename=<query>` as the backend serves it: the web framework decodes the
   * query value before the handler runs, and the handler decodes it a second time, so a file is
   * served only when decoding the query twice gives its base name.
   */
  function FileRequest(job: Option<JobView>, query: string, exists_: string -> bool, c: Codec, tempDir: string): (r: Result<Served, HttpError>)
    ensures r.Success? <==>
      && job.Some? && job.value.status == "completed" && HasExistingFile(job.value, exists_)
      && c.unquote(c.unquote(query)) == Basename(job.value.filePath.value)
  {
    DownloadFileGuard(job, c.unquote(query), exists_, c, tempDir)
  }

  /**
   * The request with the single decoding the link is built for: the framework's decoding of the
   * query value is the name compared with the file's base name.
   */
  function FileRequestOnce(job: Option<JobView>, query: string, exists_: string -> bool, c: Codec, tempDir: string): (r: Result<Served, HttpError>)
    ensures r.Success? <==>
      && job.Some? && job.value.status == "completed" && HasExistingFile(job.value, exists_)
      && c.unquote(query) == Basename(job.value.filePath.value)
    ensures r.Success? ==> r.value.filePath == job.value.filePath.value
  {
    FileGuard(job, c.unquote(query), exists_, tempDir)
  }

  /**
   * With the double decoding, the link published for a completed job is served exactly when
   * decoding the file's base name leaves it unchanged, which fails for a name holding a `%XX`
   * sequence.
   */
  lemma FileRequestDecodesTwice(job: Option<JobView>, fp: string, exists_: string -> bool, c: Codec, tempDir: string)
    requires job.Some? && job.value.status == "completed" && job.value.filePath == Some(fp)
    requires fp != [] && exists_(fp)
    ensures FileRequest(job, c.quote(Basename(fp)), exists_, c, tempDir).Success? <==> c.unquote(Basename(fp)) == Basename(fp)
  {
    assert c.unquote(c.quote(Basename(fp))) == Basename(fp);
  }

  /**
   * A file whose base name holds an escape `%XY` (say `a%41.mp3`) is published as
   * `?filename=a%2541.mp3`; the framework hands the handler `a%41.mp3`, which the handler decodes
   * to `aA.mp3` and refuses with a 400. Shown with the `%`-only codec, which agrees with `quote`
   * and `unquote` on such names.
   */
  lemma EscapedNameRefused(job: Option<JobView>, fp: string, pre: string, x: char, y: char, post: string,
                           exists_: string -> bool, tempDir: string)
    requires job.Some? && job.value.status == "completed" && job.value.filePath == Some(fp)
    requires fp != [] && exists_(fp)
    requires '%' !in pre && '%' !in post && IsHexDigit(x) && IsHexDigit(y)
    requires '0' <= x <= '7'  // an ASCII escape, which `unquote` decodes to one character
    requires Basename(fp) == pre + ['%', x, y] + post
    ensures PercentQuote(Basename(fp)) == pre + (['%', '2', '5'] + ([x, y] + post))
    ensures FileRequest(job, PercentQuote(Basename(fp)), exists_, PercentCodec(), tempDir)
      == Failure(HttpError(400, "Invalid filename. Expected: " + Basename(fp) + ", Got: " + (pre + ([EscapeChar(x, y)] + post))))
  {
    var q := PercentQuote(Basename(fp));
    var decoded := pre + ([EscapeChar(x, y)] + post);
    EscapedNameDecodes(Basename(fp), pre, x, y, post);
    var c := PercentCodec();
    assert c.unquote(c.unquote(q)) == decoded;
    DoubleDecodeRefused(job, fp, q, decoded, exists_, c, tempDir);
  }

  /** A query that decodes twice to something other than the file's base name is refused with a 400. */
  lemma DoubleDecodeRefused(job: Option<JobView>, fp: string, query: string, decoded: string,
                            exists_: string -> bool, c: Codec, tempDir: string)
    requires job.Some? && job.value.status == "completed" && job.value.filePath == Some(fp)
    requires fp != [] && exists_(fp)
    requires c.unquote(c.unquote(query)) == decoded && decoded != Basename(fp)
    ensures FileRequest(job, query, exists_, c, tempDir)
      == Failure(HttpError(400, "Invalid filename. Expected: " + Basename(fp) + ", Got: " + decoded))
  {
    assert HasExistingFile(job.value, exists_);
    assert FileRequest(job, query, exists_, c, tempDir) == FileGuard(job, decoded, exists_, tempDir);
  }

  /** Quoting a name with an escape and decoding it twice turns the escape into its character. */
  lemma EscapedNameDecodes(name: string, pre: string, x: char, y: char, post: string)
    requires '%' !in pre && '%' !in post && IsHexDigit(x) && IsHexDigit(y)
    requires name == pre + ['%', x, y] + post
    ensures PercentQuote(name) == pre + (['%', '2', '5'] + ([x, y] + post))
    ensures PercentUnquote(PercentUnquote(PercentQuote(name))) == pre + ([EscapeChar(x, y)] + post)
    ensures |pre + ([EscapeChar(x, y)] + post)| < |name|
  {
    EscapeRegroup(pre, '%', x, y, post);
    EscapedQuote(pre, x, y, post);
    EscapedUnquoteOnce(pre, x, y, post);
    EscapedUnquoteTwice(pre, x, y, post);
  }

  lemma EscapeRegroup<T>(pre: seq<T>, a: T, b: T, c: T, post: seq<T>)
    ensures pre + [a, b, c] + post == pre + ([a] + ([b, c] + post))
  {
  }

  /** Quoting escapes the `%` of the escape and nothing else. */
  lemma EscapedQuote(pre: string, x: char, y: char, post: string)
    requires '%' !in pre && '%' !in post && IsHexDigit(x) && IsHexDigit(y)
    ensures PercentQuote(pre + (['%'] + ([x, y] + post))) == pre + (['%', '2', '5'] + ([x, y] + post))
  {
    var xy := [x, y] + post;
    HexPairNoPercent(x, y, post);
    PercentPlain(pre);
    PercentPlain(xy);
    PercentQuoteAppend(pre, ['%'] + xy);
    PercentQuoteAppend(['%'], xy);
    PercentQuoteOfPercent();
    ThreeThenRest('%', '2', '5', xy);
  }

  lemma PercentQuoteOfPercent()
    ensures PercentQuote(['%']) == ['%', '2', '5']
  {
    assert ['%'][1..] == [];
  }

  lemma ThreeThenRest<T>(a: T, b: T, c: T, f: seq<T>)
    ensures [a, b, c] + f == [a] + ([b, c] + f)
  {
  }

  /** The first decoding undoes the quoting. */
  lemma EscapedUnquoteOnce(pre: string, x: char, y: char, post: string)
    requires '%' !in pre && '%' !in post && IsHexDigit(x) && IsHexDigit(y)
    ensures PercentUnquote(pre + (['%', '2', '5'] + ([x, y] + post))) == pre + (['%'] + ([x, y] + post))
  {
    var xy := [x, y] + post;
    HexPairNoPercent(x, y, post);
    PercentPlain(xy);
    ThreeThenRest('%', '2', '5', xy);
    PercentUnquotePlainPrefix(pre, ['%', '2', '5'] + xy);
    PercentUnquoteEscape('2', '5', xy);
    EscapeOfPercent();
  }

  lemma HexPairNoPercent(x: char, y: char, post: string)
    requires '%' !in post && IsHexDigit(x) && IsHexDigit(y)
    ensures '%' !in [x, y] + post
  {
    var xy := [x, y] + post;
    forall k | 0 <= k < |xy| ensures xy[k] != '%' { if k >= 2 { assert xy[k] == post[k - 2]; } }
  }

  /** `%25` is the escape of `%`. */
  lemma EscapeOfPercent()
    ensures EscapeChar('2', '5') == '%'
  {
  }

  /** The second decoding turns the escape into its character. */
  lemma EscapedUnquoteTwice(pre: string, x: char, y: char, post: string)
    requires '%' !in pre && '%' !in post && IsHexDigit(x) && IsHexDigit(y)
    ensures PercentUnquote(pre + (['%'] + ([x, y] + post))) == pre + ([EscapeChar(x, y)] + post)
  {
    ThreeThenRest('%', x, y, post);
    PercentUnquotePlainPrefix(pre, ['%', x, y] + post);
    PercentUnquoteEscape(x, y, post);
    PercentPlain(post);
  }

  lemma {:induction false} PercentUnquotePlainPrefix(pre: string, rest: string)
    requires '%' !in pre
    ensures PercentUnquote(pre + rest) == pre + PercentUnquote(rest)
    decreases |pre|
  {
    if pre != [] {
      NotInTail('%', pre);
      PercentUnquotePlainPrefix(pre[1..], rest);
      ConsAppend(pre, rest);
      PercentUnquotePlainChar(pre[0], pre[1..] + rest);
      ConsAppend(pre, PercentUnquote(rest));
    } else {
      EmptyAppend(rest);
    }
  }

  lemma NotInTail<T>(x: T, s: seq<T>)
    requires s != [] && x !in s
    ensures s[0] != x && x !in s[1..]
  {
    assert forall k :: 0 <= k < |s[1..]| ==> s[1..][k] == s[k + 1];
  }

  lemma ConsAppend<T>(s: seq<T>, a: seq<T>)
    requires s != []
    ensures s + a == [s[0]] + (s[1..] + a)
  {
  }

  lemma EmptyAppend<T>(a: seq<T>)
    ensures [] + a == a
  {
  }

  // ---- the lifecycle of a job ----

  /** A write that ends a run: an error (no stage, progress 0) or a completion (stage "completed", progress 100, a file). */
  predicate IsTerminalWrite(u: Update) {
    || (u.status == "error" && u.stage.None? && u.progress == Some(0))
    || (u.status == "completed" && u.stage == Some("completed") && u.progress == Some(100) && u.filePath.Some?)
  }

  /** A progress write: status "processing" with a stage other than "completed" and a progress. */
  predicate IsStepWrite(u: Update) {
    u.status == "processing" && u.stage.Some? && u.stage != Some("completed") && u.progress.Some?
  }

  /**
   * The writes of one background run of job `id`: progress steps, each at least `lo` and each
   * above the one before (or not below it, unless `strict`), then exactly one terminal write; no write names an album id or a payload.
   */
  predicate Lifecycle(ws: seq<Write>, id: string, lo: int, strict: bool) {
    && |ws| >= 1
    && (forall k :: 0 <= k < |ws| ==> ws[k].id == id && ws[k].u.albumId.None? && ws[k].u.payload.None?)
    && IsTerminalWrite(ws[|ws| - 1].u)
    && (forall k :: 0 <= k < |ws| - 1 ==> IsStepWrite(ws[k].u) && lo <= ws[k].u.progress.value)
    && (forall k :: 0 <= k < |ws| - 2 ==>
          if strict then ws[k].u.progress.value < ws[k + 1].u.progress.value
          else ws[k].u.progress.value <= ws[k + 1].u.progress.value)
  }

  lemma LifecycleOne(w: Write, id: string, lo: int, strict: bool)
    requires w.id == id && w.u.albumId.None? && w.u.payload.None? && IsTerminalWrite(w.u)
    ensures Lifecycle([w], id, lo, strict)
  {
  }

  /** A progress step in front of a run whose steps all come later is a run. */
  lemma LifecycleCons(w: Write, ws: seq<Write>, id: string, lo: int, strict: bool)
    requires w.id == id && w.u.albumId.None? && w.u.payload.None? && IsStepWrite(w.u)
    requires lo <= w.u.progress.value
    requires Lifecycle(ws, id, if strict then w.u.progress.value + 1 else w.u.progress.value, strict)
    ensures Lifecycle([w] + ws, id, lo, strict)
  {
    var r := [w] + ws;
    assert forall k :: 1 <= k < |r| ==> r[k] == ws[k - 1];
  }

  function Last(ws: seq<Write>): Write
    requires ws != []
  {
    ws[|ws| - 1]
  }

  /**
   * The row a run leaves: the last write's status, message and progress; after an error the
   * stage of the step that failed stays; after a completion the file path is the completion's,
   * and a download link the last write supplies is the row's.
   */
  lemma LifecycleFinalRow(t: Table, ws: seq<Write>, id: string, lo: int, strict: bool, now: int)
    requires Lifecycle(ws, id, lo, strict)
    ensures id in Replay(t, ws, now).rows
    ensures var row := Replay(t, ws, now).rows[id];
      && row.status == Last(ws).u.status && row.message == Last(ws).u.message
      && row.progress == Last(ws).u.progress && row.updatedAt == now
      && (row.status == "completed" ==> row.stage == Some("completed") && row.filePath == Last(ws).u.filePath)
      && (Last(ws).u.downloadUrl.Some? ==> row.downloadUrl == Last(ws).u.downloadUrl)
      && (row.status == "error" && |ws| >= 2 ==> row.stage == ws[|ws| - 2].u.stage)
  {
    LifecycleEnds(ws, id, lo, strict);
    FinalRow(t, ws, now);
  }

  /** A run ends with its terminal write, after a progress step of the same job if there was one. */
  lemma LifecycleEnds(ws: seq<Write>, id: string, lo: int, strict: bool)
    requires Lifecycle(ws, id, lo, strict)
    ensures ws != [] && Last(ws).id == id && IsTerminalWrite(Last(ws).u)
    ensures |ws| >= 2 ==> ws[|ws| - 2].id == id && IsStepWrite(ws[|ws| - 2].u)
  {
  }

  /** The row left by writes that end with a terminal write, after a progress step of the same job if there was one. */
  lemma FinalRow(t: Table, ws: seq<Write>, now: int)
    requires ws != [] && IsTerminalWrite(Last(ws).u)
    requires |ws| >= 2 ==> ws[|ws| - 2].id == Last(ws).id && IsStepWrite(ws[|ws| - 2].u)
    ensures Last(ws).id in Replay(t, ws, now).rows
    ensures var row := Replay(t, ws, now).rows[Last(ws).id];
      && row.status == Last(ws).u.status && row.message == Last(ws).u.message
      && row.progress == Last(ws).u.progress && row.updatedAt == now
      && (row.status == "completed" ==> row.stage == Some("completed") && row.filePath == Last(ws).u.filePath)
      && (Last(ws).u.downloadUrl.Some? ==> row.downloadUrl == Last(ws).u.downloadUrl)
      && (row.status == "error" && |ws| >= 2 ==> row.stage == ws[|ws| - 2].u.stage)
  {
    var n := |ws|;
    var w := ws[n - 1];
    assert ws == ws[..n - 1] + [w];
    AppendTerminalRow(t, ws[..n - 1], w, now);
    if n >= 2 {
      var v := ws[n - 2];
      assert ws == ws[..n - 2] + [v, w];
      AppendStepThenError(t, ws[..n - 2], v, w, now);
    }
  }

  /** The row of a terminal write appended to any writes: its status, message and progress, and for a completion its stage and file. */
  lemma AppendTerminalRow(t: Table, front: seq<Write>, w: Write, now: int)
    requires IsTerminalWrite(w.u)
    ensures w.id in Replay(t, front + [w], now).rows
    ensures var row := Replay(t, front + [w], now).rows[w.id];
      && row.status == w.u.status && row.message == w.u.message
      && row.progress == w.u.progress && row.updatedAt == now
      && (w.u.status == "completed" ==> row.stage == Some("completed") && row.filePath == w.u.filePath)
      && (w.u.downloadUrl.Some? ==> row.downloadUrl == w.u.downloadUrl)
  {
    ReplaySnoc(t, front, w, now);
    TerminalRow(Lookup(Replay(t, front, now).rows, w.id), w.u, now);
  }

  /** An error right after a progress step of the same job keeps that step's stage. */
  lemma AppendStepThenError(t: Table, front: seq<Write>, v: Write, w: Write, now: int)
    requires IsStepWrite(v.u) && IsTerminalWrite(w.u) && v.id == w.id
    ensures w.id in Replay(t, front + [v, w], now).rows
    ensures w.u.status == "error" ==> Replay(t, front + [v, w], now).rows[w.id].stage == v.u.stage
  {
    assert front + [v, w] == (front + [v]) + [w];
    ReplaySnoc(t, front + [v], w, now);
    ReplaySnoc(t, front, v, now);
    StepRow(Lookup(Replay(t, front, now).rows, v.id), v.u, now);
    TerminalRow(Lookup(Replay(t, front + [v], now).rows, w.id), w.u, now);
  }

  /** The row a terminal write leaves: an error keeps the stage before it, a completion sets its own. */
  lemma TerminalRow(previous: Option<Job>, u: Update, now: int)
    requires IsTerminalWrite(u)
    ensures var row := Merge(previous, u, now);
      && row.progress == u.progress
      && (u.status == "completed" ==> row.stage == Some("completed") && row.filePath == u.filePath)
      && (u.downloadUrl.Some? ==> row.downloadUrl == u.downloadUrl)
      && (u.status == "error" && previous.Some? ==> row.stage == previous.value.stage)
  {
  }

  /** A progress step sets the stage it names. */
  lemma StepRow(previous: Option<Job>, u: Update, now: int)
    requires IsStepWrite(u)
    ensures Merge(previous, u, now).stage == u.stage
  {
  }

  // ---- properties of the forward flow ----

  lemma FinishLifecycle(c: Codec, id: string, location: string, filePath: string, copy: Outcome<Finalize>, lo: int, strict: bool)
    requires lo <= 90
    ensures Lifecycle(FinishWrites(c, id, location, filePath, copy), id, lo, strict)
  {
    var ws := FinishWrites(c, id, location, filePath, copy);
    if location == "navidrome" {
      LifecycleOne(ws[1], id, if strict then 91 else 90, strict);
      LifecycleCons(ws[0], [ws[1]], id, lo, strict);
      assert ws == [ws[0]] + [ws[1]];
    } else {
      LifecycleOne(ws[0], id, lo, strict);
    }
  }

  /** From tagging on, the writes form a run of the job with progress from 85. */
  lemma ApplyMetadataLifecycle(c: Codec, id: string, location: string, run: ForwardRun, lo: int)
    requires run.download.Returned? && run.download.value.Downloaded? && lo <= 85
    ensures Lifecycle(ForwardFrom(c, id, location, run, ApplyMetadata), id, lo, true)
  {
    var ws := ForwardFrom(c, id, location, run, ApplyMetadata);
    assert ws == [ws[0]] + ws[1..];
    if run.tagged.Raised? {
      LifecycleOne(ws[1], id, 86, true);
    } else {
      FinishLifecycle(c, id, location, run.download.value.filePath, run.copy, 86, true);
    }
    LifecycleCons(ws[0], ws[1..], id, lo, true);
  }

  /** From the download on, the writes form a run of the job with progress from 30. */
  lemma SearchAndDownloadLifecycle(c: Codec, id: string, location: string, run: ForwardRun, lo: int)
    requires lo <= 30
    ensures Lifecycle(ForwardFrom(c, id, location, run, SearchAndDownload), id, lo, true)
  {
    var ws := ForwardFrom(c, id, location, run, SearchAndDownload);
    assert ws == [ws[0]] + ws[1..];
    if run.download.Raised? || run.download.value.DownloadFailed? {
      LifecycleOne(ws[1], id, 31, true);
    } else {
      ApplyMetadataLifecycle(c, id, location, run, 31);
    }
    LifecycleCons(ws[0], ws[1..], id, lo, true);
  }

  /** From the download location on, the writes form a run of the job with progress from 15. */
  lemma PrepareLocationLifecycle(c: Codec, id: string, location: string, run: ForwardRun, lo: int)
    requires lo <= 15
    ensures Lifecycle(ForwardFrom(c, id, location, run, PrepareLocation), id, lo, true)
  {
    var ws := ForwardFrom(c, id, location, run, PrepareLocation);
    assert ws == [ws[0]] + ws[1..];
    if run.prepared.Raised? {
      LifecycleOne(ws[1], id, 16, true);
    } else {
      SearchAndDownloadLifecycle(c, id, location, run, 16);
    }
    LifecycleCons(ws[0], ws[1..], id, lo, true);
  }

  /**
   * Every run of `download_and_process` writes only its own job: progress steps with strictly
   * rising progress from 10, then exactly one "completed" or "error" write.
   */
  lemma ForwardLifecycle(c: Codec, id: string, location: string, run: ForwardRun)
    ensures Lifecycle(ForwardWrites(c, id, location, run), id, 10, true)
  {
    var ws := ForwardFrom(c, id, location, run, FetchDetails);
    assert ws == [ws[0]] + ws[1..];
    if run.details.Raised? || !run.details.value {
      LifecycleOne(ws[1], id, 11, true);
    } else {
      PrepareLocationLifecycle(c, id, location, run, 11);
    }
    LifecycleCons(ws[0], ws[1..], id, 10, true);
  }

  lemma LastAppend(a: seq<Write>, b: seq<Write>)
    requires b != []
    ensures Last(a + b) == Last(b)
  {
  }

  /** The library copy completes the job unless it raises; the local path always completes it. */
  lemma FinishCompletes(c: Codec, id: string, location: string, filePath: string, copy: Outcome<Finalize>)
    ensures FinishWrites(c, id, location, filePath, copy) != []
    ensures Last(FinishWrites(c, id, location, filePath, copy)).u.status in {"completed", "error"}
    ensures Last(FinishWrites(c, id, location, filePath, copy)).u.status == "completed"
        <==> (location == "navidrome" ==> copy.Returned?)
  {
  }

  /** From tagging on, the run completes exactly when tagging and the library copy succeed. */
  lemma ApplyMetadataCompletes(c: Codec, id: string, location: string, run: ForwardRun)
    requires run.download.Returned? && run.download.value.Downloaded?
    ensures var ws := ForwardFrom(c, id, location, run, ApplyMetadata);
      && ws != [] && Last(ws).u.status in {"completed", "error"}
      && (Last(ws).u.status == "completed" <==> run.tagged.Returned? && (location == "navidrome" ==> run.copy.Returned?))
  {
    var ws := ForwardFrom(c, id, location, run, ApplyMetadata);
    if run.tagged.Returned? {
      FinishCompletes(c, id, location, run.download.value.filePath, run.copy);
    }
    LastAppend([ws[0]], ws[1..]);
  }

  /** From the download on, the run completes exactly when the download and every later call succeed. */
  lemma SearchAndDownloadCompletes(c: Codec, id: string, location: string, run: ForwardRun)
    ensures var ws := ForwardFrom(c, id, location, run, SearchAndDownload);
      && ws != [] && Last(ws).u.status in {"completed", "error"}
      && (Last(ws).u.status == "completed" <==>
            && run.download.Returned? && run.download.value.Downloaded?
            && run.tagged.Returned? && (location == "navidrome" ==> run.copy.Returned?))
  {
    var ws := ForwardFrom(c, id, location, run, SearchAndDownload);
    if run.download.Returned? && run.download.value.Downloaded? {
      ApplyMetadataCompletes(c, id, location, run);
    }
    LastAppend([ws[0]], ws[1..]);
  }

  /** From the download location on, the run completes exactly when every call from there on succeeds. */
  lemma PrepareLocationCompletes(c: Codec, id: string, location: string, run: ForwardRun)
    ensures var ws := ForwardFrom(c, id, location, run, PrepareLocation);
      && ws != [] && Last(ws).u.status in {"completed", "error"}
      && (Last(ws).u.status == "completed" <==>
            && run.prepared.Returned? && run.download.Returned? && run.download.value.Downloaded?
            && run.tagged.Returned? && (location == "navidrome" ==> run.copy.Returned?))
  {
    var ws := ForwardFrom(c, id, location, run, PrepareLocation);
    if run.prepared.Returned? {
      SearchAndDownloadCompletes(c, id, location, run);
    }
    LastAppend([ws[0]], ws[1..]);
  }

  /**
   * A run of `download_and_process` ends "completed" exactly when the track is found and every
   * step succeeds, the library copy included when the location is "navidrome"; it ends
   * "error" otherwise.
   */
  lemma ForwardCompletesIff(c: Codec, id: string, location: string, run: ForwardRun)
    ensures ForwardWrites(c, id, location, run) != []
    ensures var last := Last(ForwardWrites(c, id, location, run));
      && (last.u.status == "completed" || last.u.status == "error")
      && (last.u.status == "completed" <==>
            && run.details == Returned(true) && run.prepared.Returned?
            && run.download.Returned? && run.download.value.Downloaded? && run.tagged.Returned?
            && (location == "navidrome" ==> run.copy.Returned?))
  {
    var ws := ForwardFrom(c, id, location, run, FetchDetails);
    if run.details == Returned(true) {
      PrepareLocationCompletes(c, id, location, run);
    }
    LastAppend([ws[0]], ws[1..]);
  }

  /** The stage of each write. */
  function Stages(ws: seq<Write>): seq<Option<string>> {
    seq(|ws|, k requires 0 <= k < |ws| => ws[k].u.stage)
  }

  /** The progress of each write. */
  function Progresses(ws: seq<Write>): seq<Option<int>> {
    seq(|ws|, k requires 0 <= k < |ws| => ws[k].u.progress)
  }

  /**
   * When every step succeeds the stages run fetching, preparing, downloading, tagging, (copying
   * for "navidrome"), completed, at progress 10, 15, 30, 85, (90), 100.
   */
  lemma ForwardSuccessPath(c: Codec, id: string, location: string, run: ForwardRun)
    requires run.details == Returned(true) && run.prepared.Returned? && run.tagged.Returned?
    requires run.download.Returned? && run.download.value.Downloaded?
    requires location == "navidrome" ==> run.copy.Returned?
    ensures var ws := ForwardWrites(c, id, location, run);
      && (location == "navidrome" ==>
            && Stages(ws) == [Some("fetching"), Some("preparing"), Some("downloading"), Some("tagging"), Some("copying"), Some("completed")]
            && Progresses(ws) == [Some(10), Some(15), Some(30), Some(85), Some(90), Some(100)])
      && (location != "navidrome" ==>
            && Stages(ws) == [Some("fetching"), Some("preparing"), Some("downloading"), Some("tagging"), Some("completed")]
            && Progresses(ws) == [Some(10), Some(15), Some(30), Some(85), Some(100)])
  {
    var finish := FinishWrites(c, id, location, run.download.value.filePath, run.copy);
    ForwardSuccessSplit(c, id, location, run);
    StagesAppend(ForwardSteps(id), finish);
    ForwardStepsStages(id);
    FinishStages(c, id, location, run.download.value.filePath, run.copy);
    if location == "navidrome" {
      FourThenTwo(Some("fetching"), Some("preparing"), Some("downloading"), Some("tagging"), Some("copying"), Some("completed"));
      FourThenTwo(Some(10), Some(15), Some(30), Some(85), Some(90), Some(100));
    } else {
      FourThenOne(Some("fetching"), Some("preparing"), Some("downloading"), Some("tagging"), Some("completed"));
      FourThenOne(Some(10), Some(15), Some(30), Some(85), Some(100));
    }
  }

  /** The four progress steps of a run that gets as far as tagging. */
  function ForwardSteps(id: string): seq<Write> {
    ForwardHead(id) + ForwardTail(id)
  }

  /** The steps before the search: fetching and preparing. */
  function ForwardHead(id: string): seq<Write> {
    [Write(id, Processing("Fetching track info...", "fetching", 10)),
     Write(id, Processing("Preparing download location...", "preparing", 15))]
  }

  /** The steps from the search on: downloading and tagging. */
  function ForwardTail(id: string): seq<Write> {
    [Write(id, Processing("Searching YouTube and downloading...", "downloading", 30)),
     Write(id, Processing("Applying metadata...", "tagging", 85))]
  }

  /** A run whose tagging succeeds writes the tagging step, then the finish. */
  lemma ApplyMetadataSplit(c: Codec, id: string, location: string, run: ForwardRun)
    requires run.tagged.Returned? && run.download.Returned? && run.download.value.Downloaded?
    ensures ForwardFrom(c, id, location, run, ApplyMetadata)
      == [Write(id, Processing("Applying metadata...", "tagging", 85))] + FinishWrites(c, id, location, run.download.value.filePath, run.copy)
  {
  }

  /** A run whose download and tagging succeed writes the download and tagging steps, then the finish. */
  lemma ForwardTailSplit(c: Codec, id: string, location: string, run: ForwardRun)
    requires run.tagged.Returned? && run.download.Returned? && run.download.value.Downloaded?
    ensures ForwardFrom(c, id, location, run, SearchAndDownload)
      == ForwardTail(id) + FinishWrites(c, id, location, run.download.value.filePath, run.copy)
  {
    var f := FinishWrites(c, id, location, run.download.value.filePath, run.copy);
    ApplyMetadataSplit(c, id, location, run);
    var w2 := Write(id, Processing("Searching YouTube and downloading...", "downloading", 30));
    var w3 := Write(id, Processing("Applying metadata...", "tagging", 85));
    ConsTwo(w2, w3, f);
  }

  /** A run in which every call before the finish succeeds writes the four progress steps, then the finish. */
  lemma ForwardSuccessSplit(c: Codec, id: string, location: string, run: ForwardRun)
    requires run.details == Returned(true) && run.prepared.Returned? && run.tagged.Returned?
    requires run.download.Returned? && run.download.value.Downloaded?
    ensures ForwardWrites(c, id, location, run) == ForwardSteps(id) + FinishWrites(c, id, location, run.download.value.filePath, run.copy)
  {
    var f := FinishWrites(c, id, location, run.download.value.filePath, run.copy);
    var w0 := Write(id, Processing("Fetching track info...", "fetching", 10));
    var w1 := Write(id, Processing("Preparing download location...", "preparing", 15));
    var tail := ForwardTail(id);
    PrepareLocationSplit(c, id, location, run);
    ConsTwoAppend(w0, w1, tail, f);
  }

  /** From the preparation on, a run whose later calls succeed writes the preparing step, the tail steps and the finish. */
  lemma PrepareLocationSplit(c: Codec, id: string, location: string, run: ForwardRun)
    requires run.prepared.Returned? && run.tagged.Returned?
    requires run.download.Returned? && run.download.value.Downloaded?
    ensures ForwardFrom(c, id, location, run, PrepareLocation)
      == [Write(id, Processing("Preparing download location...", "preparing", 15))]
         + (ForwardTail(id) + FinishWrites(c, id, location, run.download.value.filePath, run.copy))
  {
    ForwardTailSplit(c, id, location, run);
  }

  lemma ForwardStepsStages(id: string)
    ensures Stages(ForwardSteps(id)) == [Some("fetching"), Some("preparing"), Some("downloading"), Some("tagging")]
    ensures Progresses(ForwardSteps(id)) == [Some(10), Some(15), Some(30), Some(85)]
  {
  }

  lemma FinishStages(c: Codec, id: string, location: string, filePath: string, copy: Outcome<Finalize>)
    requires location == "navidrome" ==> copy.Returned?
    ensures location == "navidrome" ==>
      Stages(FinishWrites(c, id, location, filePath, copy)) == [Some("copying"), Some("completed")]
      && Progresses(FinishWrites(c, id, location, filePath, copy)) == [Some(90), Some(100)]
    ensures location != "navidrome" ==>
      Stages(FinishWrites(c, id, location, filePath, copy)) == [Some("completed")]
      && Progresses(FinishWrites(c, id, location, filePath, copy)) == [Some(100)]
  {
    if location == "navidrome" {
      LibraryFinishStages(c, id, filePath, copy);
    } else {
      LocalFinishStages(c, id, location, filePath, copy);
    }
  }

  lemma LibraryFinishStages(c: Codec, id: string, filePath: string, copy: Outcome<Finalize>)
    requires copy.Returned?
    ensures Stages(FinishWrites(c, id, "navidrome", filePath, copy)) == [Some("copying"), Some("completed")]
    ensures Progresses(FinishWrites(c, id, "navidrome", filePath, copy)) == [Some(90), Some(100)]
  {
  }

  lemma LocalFinishStages(c: Codec, id: string, location: string, filePath: string, copy: Outcome<Finalize>)
    requires location != "navidrome"
    ensures Stages(FinishWrites(c, id, location, filePath, copy)) == [Some("completed")]
    ensures Progresses(FinishWrites(c, id, location, filePath, copy)) == [Some(100)]
  {
  }

  lemma FourThenTwo<T>(a: T, b: T, c: T, d: T, e: T, g: T)
    ensures [a, b, c, d] + [e, g] == [a, b, c, d, e, g]
  {
  }

  lemma FourThenOne<T>(a: T, b: T, c: T, d: T, e: T)
    ensures [a, b, c, d] + [e] == [a, b, c, d, e]
  {
  }

  lemma ConsTwo<T>(x: T, y: T, f: seq<T>)
    ensures [x] + ([y] + f) == [x, y] + f
  {
  }

  lemma ConsTwoAppend<T>(x: T, y: T, t: seq<T>, f: seq<T>)
    ensures [x] + ([y] + (t + f)) == ([x, y] + t) + f
  {
  }

  lemma StagesAppend(a: seq<Write>, b: seq<Write>)
    ensures Stages(a + b) == Stages(a) + Stages(b)
    ensures Progresses(a + b) == Progresses(a) + Progresses(b)
  {
    assert forall k :: 0 <= k < |a + b| ==> Stages(a + b)[k] == (Stages(a) + Stages(b))[k];
    assert forall k :: 0 <= k < |a + b| ==> Progresses(a + b)[k] == (Progresses(a) + Progresses(b))[k];
  }

  /**
   * A failed run leaves its job at status "error" and progress 0 with the stage of the step
   * that failed, since the error write names no stage.
   */
  lemma ForwardErrorKeepsStage(t: Table, c: Codec, id: string, location: string, run: ForwardRun, now: int)
    requires Last(ForwardWrites(c, id, location, run)).u.status == "error"
    ensures var ws := ForwardWrites(c, id, location, run);
      var rows := Replay(t, ws, now).rows;
      && |ws| >= 2 && id in rows
      && rows[id].status == "error" && rows[id].progress == Some(0)
      && rows[id].stage == ws[|ws| - 2].u.stage && rows[id].stage.Some? && rows[id].stage != Some("completed")
  {
    var ws := ForwardWrites(c, id, location, run);
    ForwardLifecycle(c, id, location, run);
    assert ws[0].u.status == "processing";
    LifecycleFinalRow(t, ws, id, 10, true, now);
    assert IsStepWrite(ws[|ws| - 2].u);
  }

  /**
   * A local download that succeeds records its file and the link
   * `api/download/file/<id>?filename=<quoted base name>`, and can be fetched through that link:
   * the guard of the file endpoint accepts the link's file name and serves the downloaded file.
   */
  lemma LocalDownloadIsServable(t: Table, c: Codec, id: string, run: ForwardRun, now: int,
                                exists_: string -> bool, tempDir: string)
    requires run.details == Returned(true) && run.prepared.Returned? && run.tagged.Returned?
    requires run.download.Returned? && run.download.value.Downloaded?
    requires run.download.value.filePath != [] && exists_(run.download.value.filePath)
    ensures var fp := run.download.value.filePath;
      var after := Replay(t, ForwardWrites(c, id, "local", run), now);
      FileRequestOnce(GetJob(after.rows, id), c.quote(Basename(fp)), exists_, c, tempDir).Success?
      && FileRequestOnce(GetJob(after.rows, id), c.quote(Basename(fp)), exists_, c, tempDir).value.filePath == fp
    ensures var fp := run.download.value.filePath;
      var after := Replay(t, ForwardWrites(c, id, "local", run), now);
      && id in after.rows && after.rows[id].status == "completed" && after.rows[id].filePath == Some(fp)
      && after.rows[id].downloadUrl == Some("api/download/file/" + id + "?filename=" + c.quote(Basename(fp)))
  {
    var fp := run.download.value.filePath;
    var ws := ForwardWrites(c, id, "local", run);
    ForwardLifecycle(c, id, "local", run);
    LifecycleFinalRow(t, ws, id, 10, true, now);
    ForwardSuccessLast(c, id, "local", run);
    assert Last(ws).u == Completed("Track ready for download", fp, Some(DownloadUrl(c, id, fp)));
    var job := GetJob(Replay(t, ws, now).rows, id);
    assert job.Some? && job.value.status == "completed" && job.value.filePath == Some(fp);
    CompletedJobServes(job, fp, exists_, c, tempDir);
  }

  /** A completed job whose file exists is served under the quoted base name of that file. */
  lemma CompletedJobServes(job: Option<JobView>, fp: string, exists_: string -> bool, c: Codec, tempDir: string)
    requires job.Some? && job.value.status == "completed" && job.value.filePath == Some(fp)
    requires fp != [] && exists_(fp)
    ensures FileRequestOnce(job, c.quote(Basename(fp)), exists_, c, tempDir).Success?
    ensures FileRequestOnce(job, c.quote(Basename(fp)), exists_, c, tempDir).value.filePath == fp
  {
    assert c.unquote(c.quote(Basename(fp))) == Basename(fp);
  }

  /** A run in which every call before the finish succeeds ends with the last write of the finish. */
  lemma ForwardSuccessLast(c: Codec, id: string, location: string, run: ForwardRun)
    requires run.details == Returned(true) && run.prepared.Returned? && run.tagged.Returned?
    requires run.download.Returned? && run.download.value.Downloaded?
    ensures FinishWrites(c, id, location, run.download.value.filePath, run.copy) != []
    ensures Last(ForwardWrites(c, id, location, run)) == Last(FinishWrites(c, id, location, run.download.value.filePath, run.copy))
  {
    var f := FinishWrites(c, id, location, run.download.value.filePath, run.copy);
    ForwardSuccessSplit(c, id, location, run);
    LastAppend(ForwardSteps(id), f);
  }

  /** A library scan that fails still completes the job, at the library path. */
  lemma ScanFailureStillCompletes(t: Table, c: Codec, id: string, run: ForwardRun, now: int)
    requires run.details == Returned(true) && run.prepared.Returned? && run.tagged.Returned?
    requires run.download.Returned? && run.download.value.Downloaded?
    requires run.copy.Returned? && !run.copy.value.scanned
    ensures var rows := Replay(t, ForwardWrites(c, id, "navidrome", run), now).rows;
      && id in rows
      && rows[id].status == "completed" && rows[id].progress == Some(100)
      && rows[id].filePath == Some(run.copy.value.targetPath)
      && StartsWith(rows[id].message, "Track added to library (scan may need manual trigger): ")
  {
    var ws := ForwardWrites(c, id, "navidrome", run);
    ForwardLifecycle(c, id, "navidrome", run);
    LifecycleFinalRow(t, ws, id, 10, true, now);
    ForwardSuccessLast(c, id, "navidrome", run);
    LibraryFinishLast(c, id, run.download.value.filePath, run.copy);
    UnscannedMessage(run.copy.value);
  }

  /** A copy that returns ends the library finish with a completion at the library path. */
  lemma LibraryFinishLast(c: Codec, id: string, filePath: string, copy: Outcome<Finalize>)
    requires copy.Returned?
    ensures Last(FinishWrites(c, id, "navidrome", filePath, copy)).u == Completed(ScanMessage(copy.value), copy.value.targetPath, None)
  {
  }

  /** The message of a copy whose scan failed opens with the manual-trigger notice. */
  lemma UnscannedMessage(f: Finalize)
    requires !f.scanned
    ensures StartsWith(ScanMessage(f), "Track added to library (scan may need manual trigger): ")
  {
  }

  /** After queueing, every track of the album is a queued job of the album at progress 0. */
  lemma AlbumTracksQueued(t: Table, albumId: string, album: Album, now: int)
    ensures var after := Replay(t, AlbumWrites(albumId, album), now);
      forall k :: 0 <= k < |album.trackIds| ==>
        && album.trackIds[k] in after.rows
        && after.rows[album.trackIds[k]].status == "queued"
        && after.rows[album.trackIds[k]].stage == Some("queued")
        && after.rows[album.trackIds[k]].progress == Some(0)
        && after.rows[album.trackIds[k]].albumId == Some(albumId)
  {
    var ws := AlbumWrites(albumId, album);
    var meta := ws[0];
    var qs := QueueWrites(albumId, album);
    assert ws == [meta] + qs;
    ReplayCons(t, meta, qs, now);
    var t1 := Table(Upserted(t.rows, meta.id, meta.u, now), UpsertedIds(t.rows, t.ids, meta.id));
    var u := Queued("Queued (Album: " + album.name + ")", Some(albumId), None);
    assert forall k :: 0 <= k < |qs| ==> qs[k].u == u;
    ReplayUniform(t1, qs, u, now);
    var after := Replay(t1, qs, now);
    forall k | 0 <= k < |album.trackIds|
      ensures album.trackIds[k] in after.rows && after.rows[album.trackIds[k]].status == "queued"
      ensures after.rows[album.trackIds[k]].stage == Some("queued") && after.rows[album.trackIds[k]].progress == Some(0)
      ensures after.rows[album.trackIds[k]].albumId == Some(albumId)
    {
      assert qs[k].id == album.trackIds[k];
    }
  }

  /** Queueing the tracks leaves the album's meta job, and the payload it was created with, in place. */
  lemma AlbumMetaAfterQueue(t: Table, albumId: string, album: Album, now: int)
    requires AlbumJobId(albumId) !in album.trackIds
    ensures var after := Replay(t, AlbumWrites(albumId, album), now);
      && AlbumJobId(albumId) in after.rows
      && after.rows[AlbumJobId(albumId)].payload == Some(Encoded(AlbumPayload(albumId, album)))
  {
    var ws := AlbumWrites(albumId, album);
    var meta := ws[0];
    var qs := QueueWrites(albumId, album);
    var metaId := AlbumJobId(albumId);
    assert ws == [meta] + qs;
    ReplayCons(t, meta, qs, now);
    var t1 := Table(Upserted(t.rows, meta.id, meta.u, now), UpsertedIds(t.rows, t.ids, meta.id));
    assert t1.rows[metaId].payload == Some(Encoded(AlbumPayload(albumId, album)));
    ReplayOthers(t1, qs, now, metaId);
  }

  /**
   * Right after an album is queued, its status reads back from the meta job: the album's
   * name, artist, track list and track count, and "downloading" with a current track.
   */
  lemma AlbumStatusAfterQueue(t: Table, albumId: string, album: Album, now: int)
    requires WellFormed(t.rows, t.ids)
    requires album.trackIds != [] && AlbumJobId(albumId) !in album.trackIds
    ensures var after := Replay(t, AlbumWrites(albumId, album), now);
      var r := GetAlbumDownloadStatus(after.rows, after.ids, albumId);
      && r.Success?
      && r.value.status == "downloading" && r.value.currentTrack.Some?
      && r.value.albumName == Some(album.name) && r.value.artist == Some(album.artist)
      && r.value.totalTracks == |album.trackIds| && r.value.trackIds == album.trackIds
  {
    var ws := AlbumWrites(albumId, album);
    var after := Replay(t, ws, now);
    AlbumMetaAfterQueue(t, albumId, album, now);
    // the first track is an active member of the group
    AlbumTracksQueued(t, albumId, album, now);
    ReplayWellFormed(t, ws, now);
    var first := album.trackIds[0];
    assert first != AlbumJobId(albumId);
    assert first in after.ids;
    StatusWithActiveTrack(after.rows, after.ids, albumId, album, first);
  }

  /** The status read from a meta job written for `album` while one of its tracks is still active. */
  lemma StatusWithActiveTrack(rows: map<string, Job>, ids: seq<string>, albumId: string, album: Album, first: string)
    requires album.trackIds != []
    requires AlbumJobId(albumId) in rows && rows[AlbumJobId(albumId)].payload == Some(Encoded(AlbumPayload(albumId, album)))
    requires first in ids && first in rows && first != AlbumJobId(albumId)
    requires rows[first].albumId == Some(albumId) && !Terminal(rows[first].status)
    ensures var r := GetAlbumDownloadStatus(rows, ids, albumId);
      && r.Success?
      && r.value.status == "downloading" && r.value.currentTrack.Some?
      && r.value.albumName == Some(album.name) && r.value.artist == Some(album.artist)
      && r.value.totalTracks == |album.trackIds| && r.value.trackIds == album.trackIds
  {
    var metaId := AlbumJobId(albumId);
    MembersComplete(rows, ids, albumId, Some(metaId), first);
    AggregateCurrent(rows, ids, albumId, Some(metaId));
    AggregateStatus(rows, ids, albumId, Some(metaId));
  }

  // ---- the reverse flow: a given YouTube URL, tagged from the catalogue or by hand ----

  /** What `extract_video_info` reported: a failure with an optional error text, or the video's id, thumbnail and page. */
  datatype VideoInfo = ExtractFailed(error: Option<string>) | Extracted(videoId: Option<string>, thumbnail: Option<string>, webpageUrl: Option<string>)

  /** The manual metadata object, key by key; a missing key and a JSON null are both None. */
  datatype ManualMetadata = ManualMetadata(
    name: Option<string>, title: Option<string>, artist: Option<string>, albumArtist: Option<string>,
    album: Option<string>, albumName: Option<string>, albumArt: Option<string>,
    trackNumber: Option<string>, releaseDate: Option<string>)

  const NoMetadata: ManualMetadata := ManualMetadata(None, None, None, None, None, None, None, None, None)

  /** The track description built from manual metadata, as the tagger receives it. */
  datatype ManualTrack = ManualTrack(
    id: string, name: string, artist: string, artists: seq<string>, albumArtist: string, album: string,
    trackNumber: int, releaseDate: string, albumArt: Option<string>, durationMs: int, externalUrl: string)

  datatype ManualError = MissingFields | BadTrackNumber(text: string)

  /** Python's `a or b` on an optional text: `a` unless it is missing or empty. */
  function OrElse(a: Option<string>, b: string): string {
    if a.Some? && a.value != [] then a.value else b
  }

  /** The title the manual metadata names: `name`, else `title`, stripped. */
  function ManualName(md: ManualMetadata): string {
    Strip(OrElse(md.name, OrElse(md.title, "")))
  }

  function ManualArtist(md: ManualMetadata): string {
    Strip(OrElse(md.artist, ""))
  }

  /** The message of the ValueError `int()` raises on text that is not a decimal integer. */
  function IntError(text: string): string {
    "invalid literal for int() with base 10: '" + text + "'"
  }

  /**
   * The track description of the manual path: title and artist are required; album artist and
   * album default to "YouTube", the artwork to the video thumbnail, the track number to 1.
   */
  function BuildManualTrack(jobId: string, youtubeUrl: string, metadata: Option<ManualMetadata>,
                            thumbnail: Option<string>, webpageUrl: Option<string>): Result<ManualTrack, ManualError>
  {
    var md := metadata.GetOr(NoMetadata);
    match ManualProblem(md)
    case Some(e) => Failure(e)
    case None =>
      var name := ManualName(md);
      var artist := ManualArtist(md);
      var albumArtist := OrElse(Some(Strip(OrElse(md.albumArtist, ""))), "YouTube");
      var album := OrElse(Some(Strip(OrElse(md.album, OrElse(md.albumName, "")))), "YouTube");
      var art := if md.albumArt.Some? && md.albumArt.value != [] then md.albumArt
                 else if thumbnail.Some? && thumbnail.value != [] then thumbnail else None;
      var number := TrackNumberOf(md).GetOr(1);
      Success(ManualTrack(jobId, name, artist, StrippedNonEmpty(Split(artist, {';', ','})), albumArtist, album,
                          number, Strip(OrElse(md.releaseDate, "")), art, 0, OrElse(webpageUrl, youtubeUrl)))
  }

  /** The track number: 1 when the key is missing or empty, else what `int()` reads, None where it raises. */
  function TrackNumberOf(md: ManualMetadata): Option<int> {
    if md.trackNumber.None? || md.trackNumber.value == [] then Some(1) else ParseInt(md.trackNumber.value)
  }

  /** Why the manual metadata is refused, in the order the checks run: title and artist first, then the track number. */
  function ManualProblem(md: ManualMetadata): Option<ManualError> {
    if ManualName(md) == [] || ManualArtist(md) == [] then Some(MissingFields)
    else if TrackNumberOf(md).None? then Some(BadTrackNumber(md.trackNumber.value))
    else None
  }

  /** The job's error message for a refused manual description. */
  function ManualErrorMessage(e: ManualError): string {
    match e
    case MissingFields => ManualMetadataError
    case BadTrackNumber(text) => "Error: " + IntError(text)
  }

  /**
   * The manual path fails for missing fields exactly when the title or the artist is empty after
   * stripping, and for a bad track number only on a non-empty text `int()` rejects; a built track
   * carries the job id, the stripped non-empty title and artist, non-empty artists, the album
   * artist and album given or else "YouTube", the given artwork first, the track number 1 by
   * default and the video page as its external URL.
   */
  lemma ManualTrackSpec(jobId: string, youtubeUrl: string, metadata: Option<ManualMetadata>,
                        thumbnail: Option<string>, webpageUrl: Option<string>)
    ensures var r := BuildManualTrack(jobId, youtubeUrl, metadata, thumbnail, webpageUrl);
      var md := metadata.GetOr(NoMetadata);
      && (r.Failure? <==> ManualProblem(md).Some?)
      && (r == Failure(MissingFields) <==> ManualName(md) == [] || ManualArtist(md) == [])
      && (r.Failure? && r.error.BadTrackNumber? ==>
            md.trackNumber == Some(r.error.text) && r.error.text != [] && ParseInt(r.error.text).None?)
      && (r.Success? ==>
            && r.value.id == jobId && r.value.durationMs == 0
            && r.value.name == ManualName(md) && r.value.name != [] && Trimmed(r.value.name)
            && r.value.artist == ManualArtist(md) && r.value.artist != [] && Trimmed(r.value.artist)
            && (forall k :: 0 <= k < |r.value.artists| ==> r.value.artists[k] != [] && Trimmed(r.value.artists[k]))
            && r.value.albumArtist != [] && r.value.album != []
            && (Strip(OrElse(md.albumArtist, "")) == [] ==> r.value.albumArtist == "YouTube")
            && (Strip(OrElse(md.albumArtist, "")) != [] ==> r.value.albumArtist == Strip(OrElse(md.albumArtist, "")))
            && (Strip(OrElse(md.album, OrElse(md.albumName, ""))) == [] ==> r.value.album == "YouTube")
            && (Strip(OrElse(md.album, OrElse(md.albumName, ""))) != [] ==> r.value.album == Strip(OrElse(md.album, OrElse(md.albumName, ""))))
            && (r.value.albumArt.Some? ==> r.value.albumArt.value != [])
            && (md.albumArt.Some? && md.albumArt.value != [] ==> r.value.albumArt == md.albumArt)
            && (md.trackNumber.None? || md.trackNumber == Some([]) ==> r.value.trackNumber == 1)
            && r.value.externalUrl == OrElse(webpageUrl, youtubeUrl))
  {
  }

  /** A track number written in decimal reads back as that number. */
  lemma ManualTrackNumberRoundTrip(jobId: string, youtubeUrl: string, md: ManualMetadata, n: nat,
                                   thumbnail: Option<string>, webpageUrl: Option<string>)
    requires ManualName(md) != [] && ManualArtist(md) != []
    requires md.trackNumber == Some(NatToString(n))
    ensures BuildManualTrack(jobId, youtubeUrl, Some(md), thumbnail, webpageUrl).Success?
    ensures BuildManualTrack(jobId, youtubeUrl, Some(md), thumbnail, webpageUrl).value.trackNumber == n
  {
    ParseIntNatToString(n);
  }

  /** The outcomes of one `reverse_download_and_process` run, step by step. */
  datatype ReverseRun = ReverseRun(
    info: Outcome<VideoInfo>, catalogue: Outcome<bool>, prepared: Outcome<()>, download: Outcome<Download>,
    tagged: Outcome<()>, copy: Outcome<Finalize>)

  /** The job's parameters: the URL, the location, the catalogue track id and the manual metadata. */
  datatype ReverseRequest = ReverseRequest(
    jobId: string, youtubeUrl: string, location: string, catalogueId: Option<string>, metadata: Option<ManualMetadata>)

  /** The steps of `reverse_download_and_process`, in order; each opens with a progress write. */
  datatype ReverseStep = ReadVideo | DescribeTrack | LookUpTrack | PrepareFile | DownloadVideo | TagFile

  /** How many steps follow `step`. */
  function ReverseRank(step: ReverseStep): nat {
    match step
    case ReadVideo => 5
    case DescribeTrack => 4
    case LookUpTrack => 3
    case PrepareFile => 2
    case DownloadVideo => 1
    case TagFile => 0
  }

  /** Tagging starts only from a downloaded file. */
  predicate ReverseReaches(run: ReverseRun, step: ReverseStep) {
    step == TagFile ==> run.download.Returned? && run.download.value.Downloaded?
  }

  /** A video was read and has an id. */
  predicate HasVideoId(run: ReverseRun) {
    run.info.Returned? && run.info.value.Extracted? && run.info.value.videoId.Some? && run.info.value.videoId.value != []
  }

  /** The job's error message when the video cannot be read or has no id; None once the id is known. */
  function VideoProblem(run: ReverseRun): (r: Option<string>)
    ensures r.None? <==> HasVideoId(run)
  {
    if run.info.Raised? then Some("Error: " + run.info.msg)
    else if run.info.value.ExtractFailed? then Some("Failed to read YouTube URL: " + run.info.value.error.GetOr("Unknown error"))
    else if run.info.value.videoId.None? || run.info.value.videoId.value == [] then Some("Could not determine YouTube video id")
    else None
  }

  /** A catalogue track id was given, so the track description comes from the catalogue. */
  predicate UsesCatalogue(q: ReverseRequest) {
    q.catalogueId.Some? && q.catalogueId.value != []
  }

  /**
   * The writes of `reverse_download_and_process` from `step` on, for the given request and
   * outcomes: each step's writes end in an error write or continue with the next step.
   */
  function ReverseFrom(c: Codec, q: ReverseRequest, run: ReverseRun, step: ReverseStep): seq<Write>
    requires ReverseReaches(run, step)
    decreases ReverseRank(step), 1
  {
    match step
    case ReadVideo => ReadVideoWrites(c, q, run)
    case DescribeTrack => DescribeTrackWrites(c, q, run)
    case LookUpTrack => LookUpTrackWrites(c, q, run)
    case PrepareFile => PrepareFileWrites(c, q, run)
    case DownloadVideo => DownloadVideoWrites(c, q, run)
    case TagFile => TagFileWrites(c, q, run)
  }

  /** Read the video: a progress write, then an error when the video cannot be read or has no id. */
  function ReadVideoWrites(c: Codec, q: ReverseRequest, run: ReverseRun): seq<Write>
    decreases ReverseRank(ReadVideo), 0
  {
    [Write(q.jobId, Processing("Extracting YouTube info...", "fetching", 10))]
    + (match VideoProblem(run)
       case Some(message) => [Write(q.jobId, Failed(message))]
       case None => ReverseFrom(c, q, run, DescribeTrack))
  }

  /** Describe the track: from the catalogue when a catalogue id is given, from the manual metadata otherwise. */
  function DescribeTrackWrites(c: Codec, q: ReverseRequest, run: ReverseRun): seq<Write>
    decreases ReverseRank(DescribeTrack), 0
  {
    if UsesCatalogue(q) then ReverseFrom(c, q, run, LookUpTrack)
    else match ManualProblem(q.metadata.GetOr(NoMetadata))
      case Some(e) => [Write(q.jobId, Failed(ManualErrorMessage(e)))]
      case None => ReverseFrom(c, q, run, PrepareFile)
  }

  /** Look the track up in the catalogue: a progress write, then an error when the lookup fails. */
  function LookUpTrackWrites(c: Codec, q: ReverseRequest, run: ReverseRun): seq<Write>
    decreases ReverseRank(LookUpTrack), 0
  {
    var id := q.jobId;
    [Write(id, Processing("Fetching Spotify track info...", "fetching", 20))]
    + (if run.catalogue.Raised? then [Write(id, Failed("Error: " + run.catalogue.msg))]
       else if !run.catalogue.value then [Write(id, Failed("Could not fetch Spotify track information"))]
       else ReverseFrom(c, q, run, PrepareFile))
  }

  /** Prepare the download location: a progress write, then an error when that raises. */
  function PrepareFileWrites(c: Codec, q: ReverseRequest, run: ReverseRun): seq<Write>
    decreases ReverseRank(PrepareFile), 0
  {
    var id := q.jobId;
    [Write(id, Processing("Preparing download location...", "preparing", 20))]
    + (if run.prepared.Raised? then [Write(id, Failed("Error: " + run.prepared.msg))]
       else ReverseFrom(c, q, run, DownloadVideo))
  }

  /** Download the video's audio: a progress write, then an error when the download raises or fails. */
  function DownloadVideoWrites(c: Codec, q: ReverseRequest, run: ReverseRun): seq<Write>
    decreases ReverseRank(DownloadVideo), 0
  {
    var id := q.jobId;
    [Write(id, Processing("Downloading from YouTube...", "downloading", 40))]
    + (if run.download.Raised? then [Write(id, Failed("Error: " + run.download.msg))]
       else if run.download.value.DownloadFailed? then [Write(id, Failed(DownloadError(run.download.value.error)))]
       else ReverseFrom(c, q, run, TagFile))
  }

  /** Tag the downloaded file: a progress write, then an error when tagging raises, or the finish. */
  function TagFileWrites(c: Codec, q: ReverseRequest, run: ReverseRun): seq<Write>
    requires run.download.Returned? && run.download.value.Downloaded?
    decreases ReverseRank(TagFile), 0
  {
    var id := q.jobId;
    [Write(id, Processing("Applying metadata...", "tagging", 80))]
    + (if run.tagged.Raised? then [Write(id, Failed("Error: " + run.tagged.msg))]
       else FinishWrites(c, id, q.location, run.download.value.filePath, run.copy))
  }

  const ManualMetadataError := "Manual metadata requires 'name' (song title) and 'artist'"

  /** The writes of `reverse_download_and_process` for the given request and outcomes. */
  function ReverseWrites(c: Codec, q: ReverseRequest, run: ReverseRun): seq<Write> {
    ReverseFrom(c, q, run, ReadVideo)
  }

  /** `reverse_download_and_process`: one job driven from "fetching" to "completed" or "error". */
  method ReverseDownloadAndProcess(store: Store, c: Codec, q: ReverseRequest, run: ReverseRun, now: int)
    requires store.Valid()
    modifies store
    ensures store.Valid()
    ensures Table(store.rows, store.ids) == Replay(Table(old(store.rows), old(store.ids)), ReverseWrites(c, q, run), now)
  {
    var id := q.jobId;
    ghost var todo := ReverseFrom(c, q, run, ReadVideo);
    Apply(store, Write(id, Processing("Extracting YouTube info...", "fetching", 10)), todo, now);
    todo := todo[1..];
    if run.info.Raised? {
      Apply(store, Write(id, Failed("Error: " + run.info.msg)), todo, now);
      return;
    }
    var info := run.info.value;
    if info.ExtractFailed? {
      Apply(store, Write(id, Failed("Failed to read YouTube URL: " + info.error.GetOr("Unknown error"))), todo, now);
      return;
    }
    if info.videoId.None? || info.videoId.value == [] {
      Apply(store, Write(id, Failed("Could not determine YouTube video id")), todo, now);
      return;
    }
    ReverseDescribeTrack(store, c, q, run, now);
  }

  /** The steps of `reverse_download_and_process` once the video id is known: the catalogue or the manual path. */
  method ReverseDescribeTrack(store: Store, c: Codec, q: ReverseRequest, run: ReverseRun, now: int)
    requires store.Valid()
    modifies store
    ensures store.Valid()
    ensures Table(store.rows, store.ids) == Replay(Table(old(store.rows), old(store.ids)), ReverseFrom(c, q, run, DescribeTrack), now)
  {
    if q.catalogueId.Some? && q.catalogueId.value != [] {
      ReverseLookUpTrack(store, c, q, run, now);
      return;
    }
    var problem := ManualProblem(q.metadata.GetOr(NoMetadata));
    if problem.Some? {
      ghost var todo := ReverseFrom(c, q, run, DescribeTrack);
      Apply(store, Write(q.jobId, Failed(ManualErrorMessage(problem.value))), todo, now);
      return;
    }
    ReversePrepareFile(store, c, q, run, now);
  }

  /** The steps of `reverse_download_and_process` from the catalogue lookup on. */
  method ReverseLookUpTrack(store: Store, c: Codec, q: ReverseRequest, run: ReverseRun, now: int)
    requires store.Valid()
    modifies store
    ensures store.Valid()
    ensures Table(store.rows, store.ids) == Replay(Table(old(store.rows), old(store.ids)), ReverseFrom(c, q, run, LookUpTrack), now)
  {
    ghost var todo := ReverseFrom(c, q, run, LookUpTrack);
    Apply(store, Write(q.jobId, Processing("Fetching Spotify track info...", "fetching", 20)), todo, now);
    todo := todo[1..];
    if run.catalogue.Raised? {
      Apply(store, Write(q.jobId, Failed("Error: " + run.catalogue.msg)), todo, now);
    } else if !run.catalogue.value {
      Apply(store, Write(q.jobId, Failed("Could not fetch Spotify track information")), todo, now);
    } else {
      ReversePrepareFile(store, c, q, run, now);
    }
  }

  /** The steps of `reverse_download_and_process` once the track description is known. */
  method ReversePrepareFile(store: Store, c: Codec, q: ReverseRequest, run: ReverseRun, now: int)
    requires store.Valid()
    modifies store
    ensures store.Valid()
    ensures Table(store.rows, store.ids) == Replay(Table(old(store.rows), old(store.ids)), ReverseFrom(c, q, run, PrepareFile), now)
  {
    ghost var todo := ReverseFrom(c, q, run, PrepareFile);
    Apply(store, Write(q.jobId, Processing("Preparing download location...", "preparing", 20)), todo, now);
    todo := todo[1..];
    if run.prepared.Raised? {
      Apply(store, Write(q.jobId, Failed("Error: " + run.prepared.msg)), todo, now);
      return;
    }
    ReverseDownloadVideo(store, c, q, run, now);
  }

  /** The steps of `reverse_download_and_process` from the download on. */
  method ReverseDownloadVideo(store: Store, c: Codec, q: ReverseRequest, run: ReverseRun, now: int)
    requires store.Valid()
    modifies store
    ensures store.Valid()
    ensures Table(store.rows, store.ids) == Replay(Table(old(store.rows), old(store.ids)), ReverseFrom(c, q, run, DownloadVideo), now)
  {
    ghost var todo := ReverseFrom(c, q, run, DownloadVideo);
    Apply(store, Write(q.jobId, Processing("Downloading from YouTube...", "downloading", 40)), todo, now);
    todo := todo[1..];
    if run.download.Raised? {
      Apply(store, Write(q.jobId, Failed("Error: " + run.download.msg)), todo, now);
      return;
    }
    var result := run.download.value;
    if result.DownloadFailed? {
      Apply(store, Write(q.jobId, Failed(DownloadError(result.error))), todo, now);
      return;
    }
    ReverseTagFile(store, c, q, run, now);
  }

  /** The steps of `reverse_download_and_process` from the tagging on. */
  method ReverseTagFile(store: Store, c: Codec, q: ReverseRequest, run: ReverseRun, now: int)
    requires store.Valid()
    requires run.download.Returned? && run.download.value.Downloaded?
    modifies store
    ensures store.Valid()
    ensures Table(store.rows, store.ids) == Replay(Table(old(store.rows), old(store.ids)), ReverseFrom(c, q, run, TagFile), now)
  {
    ghost var todo := ReverseFrom(c, q, run, TagFile);
    Apply(store, Write(q.jobId, Processing("Applying metadata...", "tagging", 80)), todo, now);
    todo := todo[1..];
    if run.tagged.Raised? {
      Apply(store, Write(q.jobId, Failed("Error: " + run.tagged.msg)), todo, now);
      return;
    }
    Finish(store, c, q.jobId, q.location, run.download.value.filePath, run.copy, now);
  }

  // ---- properties of the reverse flow ----

  /** A manual-metadata request without a title or an artist fails right after the video is read, before any download. */
  lemma ManualMetadataRequired(c: Codec, q: ReverseRequest, run: ReverseRun)
    requires q.catalogueId.None? || q.catalogueId == Some([])
    requires run.info.Returned? && run.info.value.Extracted?
    requires run.info.value.videoId.Some? && run.info.value.videoId.value != []
    requires var md := q.metadata.GetOr(NoMetadata); ManualName(md) == [] || ManualArtist(md) == []
    ensures ReverseWrites(c, q, run)
         == [Write(q.jobId, Processing("Extracting YouTube info...", "fetching", 10)), Write(q.jobId, Failed(ManualMetadataError))]
  {
    assert VideoProblem(run).None?;
    assert ReverseFrom(c, q, run, DescribeTrack) == [Write(q.jobId, Failed(ManualMetadataError))];
  }

  /** From tagging on, the writes form a run of the job whose progress never falls, from 80. */
  lemma TagFileLifecycle(c: Codec, q: ReverseRequest, run: ReverseRun, lo: int)
    requires run.download.Returned? && run.download.value.Downloaded? && lo <= 80
    ensures Lifecycle(ReverseFrom(c, q, run, TagFile), q.jobId, lo, false)
  {
    var ws := ReverseFrom(c, q, run, TagFile);
    assert ws == [ws[0]] + ws[1..];
    if run.tagged.Raised? {
      LifecycleOne(ws[1], q.jobId, 80, false);
    } else {
      FinishLifecycle(c, q.jobId, q.location, run.download.value.filePath, run.copy, 80, false);
    }
    LifecycleCons(ws[0], ws[1..], q.jobId, lo, false);
  }

  /** From the download on, the writes form a run of the job whose progress never falls, from 40. */
  lemma DownloadVideoLifecycle(c: Codec, q: ReverseRequest, run: ReverseRun, lo: int)
    requires lo <= 40
    ensures Lifecycle(ReverseFrom(c, q, run, DownloadVideo), q.jobId, lo, false)
  {
    var ws := ReverseFrom(c, q, run, DownloadVideo);
    assert ws == [ws[0]] + ws[1..];
    if run.download.Raised? || run.download.value.DownloadFailed? {
      LifecycleOne(ws[1], q.jobId, 40, false);
    } else {
      TagFileLifecycle(c, q, run, 40);
    }
    LifecycleCons(ws[0], ws[1..], q.jobId, lo, false);
  }

  /** From the download location on, the writes form a run of the job whose progress never falls, from 20. */
  lemma PrepareFileLifecycle(c: Codec, q: ReverseRequest, run: ReverseRun, lo: int)
    requires lo <= 20
    ensures Lifecycle(ReverseFrom(c, q, run, PrepareFile), q.jobId, lo, false)
  {
    var ws := ReverseFrom(c, q, run, PrepareFile);
    assert ws == [ws[0]] + ws[1..];
    if run.prepared.Raised? {
      LifecycleOne(ws[1], q.jobId, 20, false);
    } else {
      DownloadVideoLifecycle(c, q, run, 20);
    }
    LifecycleCons(ws[0], ws[1..], q.jobId, lo, false);
  }

  /** From the catalogue lookup on, the writes form a run of the job whose progress never falls, from 20. */
  lemma LookUpTrackLifecycle(c: Codec, q: ReverseRequest, run: ReverseRun, lo: int)
    requires lo <= 20
    ensures Lifecycle(ReverseFrom(c, q, run, LookUpTrack), q.jobId, lo, false)
  {
    var ws := ReverseFrom(c, q, run, LookUpTrack);
    assert ws == [ws[0]] + ws[1..];
    if run.catalogue.Raised? || !run.catalogue.value {
      LifecycleOne(ws[1], q.jobId, 20, false);
    } else {
      PrepareFileLifecycle(c, q, run, 20);
    }
    LifecycleCons(ws[0], ws[1..], q.jobId, lo, false);
  }

  /** Once the video id is known, the writes form a run of the job whose progress never falls, from 20. */
  lemma DescribeTrackLifecycle(c: Codec, q: ReverseRequest, run: ReverseRun, lo: int)
    requires lo <= 20
    ensures Lifecycle(ReverseFrom(c, q, run, DescribeTrack), q.jobId, lo, false)
  {
    var ws := ReverseFrom(c, q, run, DescribeTrack);
    if UsesCatalogue(q) {
      LookUpTrackLifecycle(c, q, run, lo);
    } else if ManualProblem(q.metadata.GetOr(NoMetadata)).Some? {
      LifecycleOne(ws[0], q.jobId, lo, false);
    } else {
      PrepareFileLifecycle(c, q, run, lo);
    }
  }

  /**
   * Every run of `reverse_download_and_process` writes only its own job: progress steps whose
   * progress never falls, from 10, then exactly one "completed" or "error" write.
   */
  lemma ReverseLifecycle(c: Codec, q: ReverseRequest, run: ReverseRun)
    ensures Lifecycle(ReverseWrites(c, q, run), q.jobId, 10, false)
  {
    var ws := ReverseFrom(c, q, run, ReadVideo);
    var rest := ws[1..];
    assert ws == [ws[0]] + rest;
    if VideoProblem(run).Some? {
      assert rest == [ws[1]];
      LifecycleOne(ws[1], q.jobId, 10, false);
    } else {
      assert rest == ReverseFrom(c, q, run, DescribeTrack);
      DescribeTrackLifecycle(c, q, run, 10);
    }
    LifecycleCons(ws[0], rest, q.jobId, 10, false);
  }

  /** From tagging on, the run completes exactly when tagging and the library copy succeed. */
  lemma TagFileCompletes(c: Codec, q: ReverseRequest, run: ReverseRun)
    requires run.download.Returned? && run.download.value.Downloaded?
    ensures var ws := ReverseFrom(c, q, run, TagFile);
      && ws != [] && Last(ws).u.status in {"completed", "error"}
      && (Last(ws).u.status == "completed" <==> run.tagged.Returned? && (q.location == "navidrome" ==> run.copy.Returned?))
  {
    var ws := ReverseFrom(c, q, run, TagFile);
    if run.tagged.Returned? {
      FinishCompletes(c, q.jobId, q.location, run.download.value.filePath, run.copy);
    }
    LastAppend([ws[0]], ws[1..]);
  }

  /** From the download on, the run completes exactly when the download and every later call succeed. */
  lemma DownloadVideoCompletes(c: Codec, q: ReverseRequest, run: ReverseRun)
    ensures var ws := ReverseFrom(c, q, run, DownloadVideo);
      && ws != [] && Last(ws).u.status in {"completed", "error"}
      && (Last(ws).u.status == "completed" <==>
            && run.download.Returned? && run.download.value.Downloaded?
            && run.tagged.Returned? && (q.location == "navidrome" ==> run.copy.Returned?))
  {
    var ws := ReverseFrom(c, q, run, DownloadVideo);
    if run.download.Returned? && run.download.value.Downloaded? {
      TagFileCompletes(c, q, run);
    }
    LastAppend([ws[0]], ws[1..]);
  }

  /** From the download location on, the run completes exactly when every call from there on succeeds. */
  lemma PrepareFileCompletes(c: Codec, q: ReverseRequest, run: ReverseRun)
    ensures var ws := ReverseFrom(c, q, run, PrepareFile);
      && ws != [] && Last(ws).u.status in {"completed", "error"}
      && (Last(ws).u.status == "completed" <==>
            && run.prepared.Returned? && run.download.Returned? && run.download.value.Downloaded?
            && run.tagged.Returned? && (q.location == "navidrome" ==> run.copy.Returned?))
  {
    var ws := ReverseFrom(c, q, run, PrepareFile);
    if run.prepared.Returned? {
      DownloadVideoCompletes(c, q, run);
    }
    LastAppend([ws[0]], ws[1..]);
  }

  /** From the catalogue lookup on, the run completes exactly when the lookup and every later call succeed. */
  lemma LookUpTrackCompletes(c: Codec, q: ReverseRequest, run: ReverseRun)
    ensures var ws := ReverseFrom(c, q, run, LookUpTrack);
      && ws != [] && Last(ws).u.status in {"completed", "error"}
      && (Last(ws).u.status == "completed" <==>
            && run.catalogue == Returned(true) && run.prepared.Returned?
            && run.download.Returned? && run.download.value.Downloaded?
            && run.tagged.Returned? && (q.location == "navidrome" ==> run.copy.Returned?))
  {
    var ws := ReverseFrom(c, q, run, LookUpTrack);
    if run.catalogue == Returned(true) {
      PrepareFileCompletes(c, q, run);
    }
    LastAppend([ws[0]], ws[1..]);
  }

  /**
   * Once the video id is known, the run completes exactly when the track description is obtained
   * (from the catalogue or from valid manual metadata) and every later call succeeds.
   */
  lemma DescribeTrackCompletes(c: Codec, q: ReverseRequest, run: ReverseRun)
    ensures var ws := ReverseFrom(c, q, run, DescribeTrack);
      && ws != [] && Last(ws).u.status in {"completed", "error"}
      && (Last(ws).u.status == "completed" <==>
            && (UsesCatalogue(q) ==> run.catalogue == Returned(true))
            && (!UsesCatalogue(q) ==> ManualProblem(q.metadata.GetOr(NoMetadata)).None?)
            && run.prepared.Returned? && run.download.Returned? && run.download.value.Downloaded?
            && run.tagged.Returned? && (q.location == "navidrome" ==> run.copy.Returned?))
  {
    if UsesCatalogue(q) {
      LookUpTrackCompletes(c, q, run);
    } else if ManualProblem(q.metadata.GetOr(NoMetadata)).None? {
      PrepareFileCompletes(c, q, run);
    }
  }

  /**
   * A run of `reverse_download_and_process` ends "completed" exactly when the video is read with
   * an id, the track description is obtained (from the catalogue when a catalogue id is given,
   * from valid manual metadata otherwise) and every later step succeeds; it ends "error" otherwise.
   */
  lemma ReverseCompletesIff(c: Codec, q: ReverseRequest, run: ReverseRun)
    ensures ReverseWrites(c, q, run) != []
    ensures var last := Last(ReverseWrites(c, q, run));
      && (last.u.status == "completed" || last.u.status == "error")
      && (last.u.status == "completed" <==>
            && HasVideoId(run)
            && (UsesCatalogue(q) ==> run.catalogue == Returned(true))
            && (!UsesCatalogue(q) ==> ManualProblem(q.metadata.GetOr(NoMetadata)).None?)
            && run.prepared.Returned? && run.download.Returned? && run.download.value.Downloaded?
            && run.tagged.Returned? && (q.location == "navidrome" ==> run.copy.Returned?))
  {
    var ws := ReverseFrom(c, q, run, ReadVideo);
    if HasVideoId(run) {
      DescribeTrackCompletes(c, q, run);
    }
    LastAppend([ws[0]], ws[1..]);
  }
}
