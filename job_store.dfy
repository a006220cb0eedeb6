/**
 * The job record store: one row per job id in the `download_jobs` table, written by a
 * merge-upsert and read by a point lookup, an album listing and an album aggregate.
 * The table is a map from job id to row, plus the ids in insertion order (the order rows
 * are scanned in, which decides the order of rows with equal timestamps).
 */
module JobStore {
  import opened Wrappers
  import opened Sorting

  /** The JSON payload of a job, as the service reads it: the keys it looks up, each possibly absent. */
  datatype Payload = Payload(
    albumId: Option<string>, albumName: Option<string>, artist: Option<string>,
    trackIds: Option<seq<string>>, totalTracks: Option<int>)

  const EmptyPayload: Payload := Payload(None, None, None, None, None)

  /** The payload column: text that decodes to a payload, or text that does not decode. */
  datatype StoredPayload = Encoded(payload: Payload) | Unreadable

  /** One row of `download_jobs`, without its key. Timestamps are milliseconds. */
  datatype Job = Job(
    status: string, stage: Option<string>, progress: Option<int>, message: string,
    filePath: Option<string>, downloadUrl: Option<string>, error: Option<string>,
    albumId: Option<string>, payload: Option<StoredPayload>, createdAt: int, updatedAt: int)

  /** The arguments of `upsert_job` after the job id: `status` and `message` are required, the rest optional. */
  datatype Update = Update(
    status: string, message: string, stage: Option<string>, progress: Option<int>,
    filePath: Option<string>, downloadUrl: Option<string>, error: Option<string>,
    albumId: Option<string>, payload: Option<Payload>)

  /** SQL `COALESCE(new, old)`. */
  function Coalesce<T>(given: Option<T>, previous: Option<T>): (r: Option<T>)
    ensures given.Some? ==> r == given
    ensures given.None? ==> r == previous
  {
    if given.Some? then given else previous
  }

  function Encode(p: Option<Payload>): (r: Option<StoredPayload>)
    ensures r.None? <==> p.None?
    ensures p.Some? ==> r == Some(Encoded(p.value))
  {
    if p.Some? then Some(Encoded(p.value)) else None
  }

  function Lookup(rows: map<string, Job>, id: string): (r: Option<Job>)
    ensures r.Some? <==> id in rows
    ensures id in rows ==> r.value == rows[id]
  {
    if id in rows then Some(rows[id]) else None
  }

  /**
   * The row an upsert leaves: a new row stamped `now` on insert; on conflict `status` and
   * `message` overwritten, the optional fields coalesced, `created_at` kept, `updated_at` = now.
   */
  function Merge(previous: Option<Job>, u: Update, now: int): (j: Job)
    ensures j.status == u.status && j.message == u.message && j.updatedAt == now
    ensures previous.None? ==>
      && j.createdAt == now
      && j.stage == u.stage && j.progress == u.progress && j.filePath == u.filePath
      && j.downloadUrl == u.downloadUrl && j.error == u.error && j.albumId == u.albumId
      && j.payload == Encode(u.payload)
    ensures previous.Some? ==>
      && j.createdAt == previous.value.createdAt
      && j.stage == Coalesce(u.stage, previous.value.stage)
      && j.progress == Coalesce(u.progress, previous.value.progress)
      && j.filePath == Coalesce(u.filePath, previous.value.filePath)
      && j.downloadUrl == Coalesce(u.downloadUrl, previous.value.downloadUrl)
      && j.error == Coalesce(u.error, previous.value.error)
      && j.albumId == Coalesce(u.albumId, previous.value.albumId)
      && j.payload == Coalesce(Encode(u.payload), previous.value.payload)
  {
    match previous
    case None =>
      Job(u.status, u.stage, u.progress, u.message, u.filePath, u.downloadUrl, u.error,
          u.albumId, Encode(u.payload), now, now)
    case Some(o) =>
      Job(u.status, Coalesce(u.stage, o.stage), Coalesce(u.progress, o.progress), u.message,
          Coalesce(u.filePath, o.filePath), Coalesce(u.downloadUrl, o.downloadUrl),
          Coalesce(u.error, o.error), Coalesce(u.albumId, o.albumId),
          Coalesce(Encode(u.payload), o.payload), o.createdAt, now)
  }

  /** Repeating an upsert at the same instant changes nothing more. */
  lemma MergeIdempotent(previous: Option<Job>, u: Update, now: int)
    ensures Merge(Some(Merge(previous, u, now)), u, now) == Merge(previous, u, now)
  {
  }

  /** Whatever came before, an upsert that names every optional field leaves the same row apart from `created_at`. */
  lemma MergeFullUpdateForgetsHistory(a: Job, b: Job, u: Update, now: int)
    requires u.stage.Some? && u.progress.Some? && u.filePath.Some? && u.downloadUrl.Some?
    requires u.error.Some? && u.albumId.Some? && u.payload.Some?
    requires a.createdAt == b.createdAt
    ensures Merge(Some(a), u, now) == Merge(Some(b), u, now)
  {
  }

  /** The rows and the ids agree, and no id is listed twice. */
  ghost predicate WellFormed(rows: map<string, Job>, ids: seq<string>) {
    && (forall id :: id in rows <==> id in ids)
    && (forall i, j :: 0 <= i < j < |ids| ==> ids[i] != ids[j])
  }

  /** The row table after an upsert of `u` into the row for `id`. */
  function Upserted(rows: map<string, Job>, id: string, u: Update, now: int): (r: map<string, Job>)
    ensures r.Keys == rows.Keys + {id}
    ensures r[id] == Merge(Lookup(rows, id), u, now)
    ensures forall other :: other != id && other in rows ==> r[other] == rows[other]
  {
    rows[id := Merge(Lookup(rows, id), u, now)]
  }

  /** The id order after an upsert: a new id goes last, an existing one stays where it is. */
  function UpsertedIds(rows: map<string, Job>, ids: seq<string>, id: string): seq<string> {
    if id in rows then ids else ids + [id]
  }

  lemma UpsertKeepsWellFormed(rows: map<string, Job>, ids: seq<string>, id: string, u: Update, now: int)
    requires WellFormed(rows, ids)
    ensures WellFormed(Upserted(rows, id, u, now), UpsertedIds(rows, ids, id))
  {
    var ids' := UpsertedIds(rows, ids, id);
    if id !in rows {
      forall i, j | 0 <= i < j < |ids'|
        ensures ids'[i] != ids'[j]
      {
        if j == |ids| {
          assert ids'[i] == ids[i];
          assert ids[i] in rows;
        }
      }
    }
  }

  /** The `download_jobs` table. */
  class Store {
    var rows: map<string, Job>
    /** The job ids in insertion order. */
    var ids: seq<string>

    ghost predicate Valid()
      reads this
    {
      WellFormed(rows, ids)
    }

    /** `init_jobs_db` on a new database: an empty table. */
    constructor()
      ensures Valid() && rows == map[] && ids == []
    {
      rows := map[];
      ids := [];
    }

    /** `upsert_job(job_id, ...)` at time `now`: only the row for `jobId` changes. */
    method Upsert(jobId: string, u: Update, now: int)
      requires Valid()
      modifies this
      ensures Valid()
      ensures rows == Upserted(old(rows), jobId, u, now)
      ensures ids == UpsertedIds(old(rows), old(ids), jobId)
    {
      UpsertKeepsWellFormed(rows, ids, jobId, u, now);
      if jobId !in rows {
        ids := ids + [jobId];
      }
      rows := rows[jobId := Merge(Lookup(rows, jobId), u, now)];
    }
  }

  // ---- sequences of upserts ----

  /** The whole table: rows and their insertion order. */
  datatype Table = Table(rows: map<string, Job>, ids: seq<string>)

  /** One `upsert_job` call: the job id and its arguments. */
  datatype Write = Write(id: string, u: Update)

  /** The table after the writes, in order, all at time `now`. */
  function Replay(t: Table, ws: seq<Write>, now: int): Table
    decreases |ws|
  {
    if ws == [] then t
    else
      var before := Replay(t, ws[..|ws| - 1], now);
      var w := ws[|ws| - 1];
      Table(Upserted(before.rows, w.id, w.u, now), UpsertedIds(before.rows, before.ids, w.id))
  }

  /** The jobs after replaying are the jobs before plus every job written. */
  lemma {:induction false} ReplayKeys(t: Table, ws: seq<Write>, now: int)
    ensures Replay(t, ws, now).rows.Keys == t.rows.Keys + set k | 0 <= k < |ws| :: ws[k].id
    decreases |ws|
  {
    if ws != [] {
      ReplayKeys(t, ws[..|ws| - 1], now);
      WriteIdsSnoc(ws, ws[..|ws| - 1]);
    }
  }

  /** The ids of some writes are those of all but the last, plus the last one's. */
  lemma WriteIdsSnoc(ws: seq<Write>, front: seq<Write>)
    requires ws != [] && front == ws[..|ws| - 1]
    ensures (set k | 0 <= k < |ws| :: ws[k].id) == (set k | 0 <= k < |front| :: front[k].id) + {ws[|ws| - 1].id}
  {
    assert forall k :: 0 <= k < |ws| - 1 ==> front[k] == ws[k];
  }

  /** Replaying writes keeps the table well formed. */
  lemma {:induction false} ReplayWellFormed(t: Table, ws: seq<Write>, now: int)
    requires WellFormed(t.rows, t.ids)
    ensures WellFormed(Replay(t, ws, now).rows, Replay(t, ws, now).ids)
    decreases |ws|
  {
    if ws != [] {
      ReplayWellFormed(t, ws[..|ws| - 1], now);
      var before := Replay(t, ws[..|ws| - 1], now);
      UpsertKeepsWellFormed(before.rows, before.ids, ws[|ws| - 1].id, ws[|ws| - 1].u, now);
    }
  }

  /** Replaying one more write is one more upsert. */
  lemma ReplaySnoc(t: Table, ws: seq<Write>, w: Write, now: int)
    ensures Replay(t, ws + [w], now)
         == var b := Replay(t, ws, now); Table(Upserted(b.rows, w.id, w.u, now), UpsertedIds(b.rows, b.ids, w.id))
  {
    assert (ws + [w])[..|ws|] == ws;
  }

  /** Replaying two runs of writes one after the other is replaying them together. */
  lemma {:induction false} ReplayAppend(t: Table, a: seq<Write>, b: seq<Write>, now: int)
    ensures Replay(Replay(t, a, now), b, now) == Replay(t, a + b, now)
    decreases |b|
  {
    if b != [] {
      var b' := b[..|b| - 1];
      ReplayAppend(t, a, b', now);
      assert (a + b)[..|a + b| - 1] == a + b';
    } else {
      assert a + b == a;
    }
  }

  /** Replaying a write and then the rest is replaying the rest on the table after that one upsert. */
  lemma ReplayCons(t: Table, w: Write, ws: seq<Write>, now: int)
    ensures Replay(t, [w] + ws, now)
         == Replay(Table(Upserted(t.rows, w.id, w.u, now), UpsertedIds(t.rows, t.ids, w.id)), ws, now)
  {
    ReplayAppend(t, [w], ws, now);
    assert [w][..0] == [];
  }

  /** Writes that name no album id and no payload keep a row's album id, payload and creation time. */
  lemma {:induction false} ReplayKeepsAlbum(t: Table, ws: seq<Write>, now: int, id: string)
    requires id in t.rows
    requires forall k :: 0 <= k < |ws| ==> ws[k].u.albumId.None? && ws[k].u.payload.None?
    ensures id in Replay(t, ws, now).rows
    ensures Replay(t, ws, now).rows[id].albumId == t.rows[id].albumId
    ensures Replay(t, ws, now).rows[id].payload == t.rows[id].payload
    ensures Replay(t, ws, now).rows[id].createdAt == t.rows[id].createdAt
    decreases |ws|
  {
    if ws != [] {
      ReplayKeepsAlbum(t, ws[..|ws| - 1], now, id);
      assert ws[|ws| - 1].u.albumId.None? && ws[|ws| - 1].u.payload.None?;
    }
  }

  /**
   * After writes that all carry the same arguments `u`, every job written has `u`'s status and
   * message, and each optional field `u` supplies.
   */
  lemma {:induction false} ReplayUniform(t: Table, ws: seq<Write>, u: Update, now: int)
    requires forall k :: 0 <= k < |ws| ==> ws[k].u == u
    ensures forall k :: 0 <= k < |ws| ==> ws[k].id in Replay(t, ws, now).rows
    ensures forall k :: 0 <= k < |ws| ==>
      var row := Replay(t, ws, now).rows[ws[k].id];
      && row.status == u.status && row.message == u.message
      && (u.stage.Some? ==> row.stage == u.stage)
      && (u.progress.Some? ==> row.progress == u.progress)
      && (u.albumId.Some? ==> row.albumId == u.albumId)
    decreases |ws|
  {
    if ws != [] {
      var front := ws[..|ws| - 1];
      ReplayUniform(t, front, u, now);
      forall k | 0 <= k < |ws|
        ensures ws[k].id in Replay(t, ws, now).rows
        ensures var row := Replay(t, ws, now).rows[ws[k].id];
          && row.status == u.status && row.message == u.message
          && (u.stage.Some? ==> row.stage == u.stage)
          && (u.progress.Some? ==> row.progress == u.progress)
          && (u.albumId.Some? ==> row.albumId == u.albumId)
      {
        if k < |ws| - 1 {
          assert front[k] == ws[k];
        }
      }
    }
  }

  /** Writes for other ids leave a row as it was. */
  lemma {:induction false} ReplayOthers(t: Table, ws: seq<Write>, now: int, id: string)
    requires forall k :: 0 <= k < |ws| ==> ws[k].id != id
    ensures Lookup(Replay(t, ws, now).rows, id) == Lookup(t.rows, id)
    decreases |ws|
  {
    if ws != [] {
      ReplayOthers(t, ws[..|ws| - 1], now, id);
    }
  }

  // ---- get_job ----

  /** A row as `get_job` returns it: the decoded payload, or None when absent or unreadable. */
  datatype JobView = JobView(
    jobId: string, status: string, stage: Option<string>, progress: Option<int>, message: string,
    filePath: Option<string>, downloadUrl: Option<string>, error: Option<string>,
    albumId: Option<string>, payload: Option<Payload>, createdAt: int, updatedAt: int)

  function Decode(stored: Option<StoredPayload>): (r: Option<Payload>)
    ensures r.Some? <==> stored.Some? && stored.value.Encoded?
    ensures forall p :: stored == Some(Encoded(p)) ==> r == Some(p)
  {
    if stored.Some? && stored.value.Encoded? then Some(stored.value.payload) else None
  }

  /** `get_job(job_id)`. */
  function GetJob(rows: map<string, Job>, id: string): (r: Option<JobView>)
    ensures r.None? <==> id !in rows
    ensures r.Some? ==>
      && r.value.jobId == id && r.value.status == rows[id].status
      && r.value.payload == Decode(rows[id].payload)
    ensures r.Some? ==>
      && r.value.stage == rows[id].stage && r.value.progress == rows[id].progress
      && r.value.message == rows[id].message && r.value.filePath == rows[id].filePath
      && r.value.downloadUrl == rows[id].downloadUrl && r.value.error == rows[id].error
      && r.value.albumId == rows[id].albumId
      && r.value.createdAt == rows[id].createdAt && r.value.updatedAt == rows[id].updatedAt
  {
    if id !in rows then None
    else
      var j := rows[id];
      Some(JobView(id, j.status, j.stage, j.progress, j.message, j.filePath, j.downloadUrl,
                   j.error, j.albumId, Decode(j.payload), j.createdAt, j.updatedAt))
  }

  /**
   * Reading back after an upsert: status and message are the new ones, a supplied payload reads
   * back as given and an omitted one as before, and every other job reads as before.
   */
  lemma GetAfterUpsert(rows: map<string, Job>, id: string, u: Update, now: int, other: string)
    ensures var v := GetJob(Upserted(rows, id, u, now), id).value;
      && v.status == u.status && v.message == u.message && v.updatedAt == now
      && (u.payload.Some? ==> v.payload == u.payload)
      && (u.payload.None? ==> v.payload == (if id in rows then Decode(rows[id].payload) else None))
      && (id in rows ==> v.createdAt == rows[id].createdAt)
    ensures other != id ==> GetJob(Upserted(rows, id, u, now), other) == GetJob(rows, other)
  {
  }

  // ---- album listing and aggregate ----

  datatype Entry = Entry(id: string, job: Job)

  function UpdatedKey(e: Entry): real {
    e.job.updatedAt as real
  }

  /** An exclusion applies only when a non-empty id is given. */
  predicate Excludes(exclude: Option<string>, id: string) {
    exclude.Some? && exclude.value != [] && id == exclude.value
  }

  /** `WHERE album_id = ? [AND job_id <> ?]`. */
  predicate InGroup(id: string, j: Job, albumId: string, exclude: Option<string>) {
    j.albumId == Some(albumId) && !Excludes(exclude, id)
  }

  /** The rows of the group, in table order. */
  function Members(rows: map<string, Job>, ids: seq<string>, albumId: string, exclude: Option<string>): (r: seq<Entry>)
    ensures |r| <= |ids|
    ensures forall e :: e in r ==> e.id in ids && e.id in rows && e.job == rows[e.id] && InGroup(e.id, e.job, albumId, exclude)
  {
    if ids == [] then []
    else
      var head := if ids[0] in rows && InGroup(ids[0], rows[ids[0]], albumId, exclude)
        then [Entry(ids[0], rows[ids[0]])] else [];
      head + Members(rows, ids[1..], albumId, exclude)
  }

  /** Every row of the group is listed. */
  lemma {:induction false} MembersComplete(rows: map<string, Job>, ids: seq<string>, albumId: string, exclude: Option<string>, id: string)
    requires id in ids && id in rows && InGroup(id, rows[id], albumId, exclude)
    ensures Entry(id, rows[id]) in Members(rows, ids, albumId, exclude)
    decreases |ids|
  {
    if ids[0] != id {
      assert id in ids[1..];
      MembersComplete(rows, ids[1..], albumId, exclude, id);
    }
  }

  predicate DistinctIds(m: seq<Entry>) {
    forall i, j :: 0 <= i < j < |m| ==> m[i].id != m[j].id
  }

  /** No job is listed twice when no id is. */
  lemma {:induction false} MembersDistinct(rows: map<string, Job>, ids: seq<string>, albumId: string, exclude: Option<string>)
    requires forall i, j :: 0 <= i < j < |ids| ==> ids[i] != ids[j]
    ensures DistinctIds(Members(rows, ids, albumId, exclude))
    decreases |ids|
  {
    if ids != [] {
      var tail := Members(rows, ids[1..], albumId, exclude);
      MembersDistinct(rows, ids[1..], albumId, exclude);
      assert DistinctIds(tail);
      var m := Members(rows, ids, albumId, exclude);
      if m != tail {
        assert m == [Entry(ids[0], rows[ids[0]])] + tail;
        assert forall n :: 0 <= n < |ids| - 1 ==> ids[1..][n] == ids[n + 1] && ids[n + 1] != ids[0];
        assert ids[0] !in ids[1..];
        forall k | 0 <= k < |tail|
          ensures tail[k].id != ids[0]
        {
          assert tail[k] in tail;
        }
        forall i, j | 0 <= i < j < |m|
          ensures m[i].id != m[j].id
        {
          assert m[j] == tail[j - 1];
          if i > 0 {
            assert m[i] == tail[i - 1];
            assert tail[i - 1].id != tail[j - 1].id;
          } else {
            assert m[0].id == ids[0];
            assert tail[j - 1].id != ids[0];
          }
        }
      }
    }
  }

  /** `get_album_track_jobs(album_id, exclude_job_id=...)`: the group, latest update first. */
  function TrackJobs(rows: map<string, Job>, ids: seq<string>, albumId: string, exclude: Option<string>): (r: seq<Entry>)
    ensures multiset(r) == multiset(Members(rows, ids, albumId, exclude))
  {
    SortDesc(Members(rows, ids, albumId, exclude), UpdatedKey)
  }

  /**
   * The listing holds exactly the jobs of the album other than the excluded one, each once,
   * with its stored row, ordered by `updated_at` descending.
   */
  lemma TrackJobsSpec(rows: map<string, Job>, ids: seq<string>, albumId: string, exclude: Option<string>)
    requires WellFormed(rows, ids)
    ensures var r := TrackJobs(rows, ids, albumId, exclude);
      && (forall e :: e in r ==> e.id in rows && e.job == rows[e.id] && InGroup(e.id, e.job, albumId, exclude))
      && (forall id :: id in rows && InGroup(id, rows[id], albumId, exclude) ==> Entry(id, rows[id]) in r)
      && (forall e :: e in r ==> multiset(r)[e] == 1)
      && (forall i, j :: 0 <= i < j < |r| ==> r[i].job.updatedAt >= r[j].job.updatedAt)
  {
    var m := Members(rows, ids, albumId, exclude);
    var r := TrackJobs(rows, ids, albumId, exclude);
    SortDescSorted(m, UpdatedKey);
    MembersDistinct(rows, ids, albumId, exclude);
    forall e | e in r
      ensures e in m
    {
      assert e in multiset(r);
    }
    forall id | id in rows && InGroup(id, rows[id], albumId, exclude)
      ensures Entry(id, rows[id]) in r
    {
      MembersComplete(rows, ids, albumId, exclude, id);
      assert Entry(id, rows[id]) in multiset(m);
    }
    forall e | e in r
      ensures multiset(r)[e] == 1
    {
      DistinctCountsOnce(m, e);
    }
  }

  /** In a list whose ids are distinct, an element occurs once. */
  lemma {:induction false} DistinctCountsOnce(m: seq<Entry>, e: Entry)
    requires DistinctIds(m)
    requires e in m
    ensures multiset(m)[e] == 1
    decreases |m|
  {
    assert m == [m[0]] + m[1..];
    if m[0] == e {
      assert forall k :: 0 <= k < |m[1..]| ==> m[1..][k] == m[k + 1] && m[k + 1].id != e.id;
      assert e !in m[1..];
      assert multiset(m[1..])[e] == 0;
    } else {
      DistinctCountsOnce(m[1..], e);
    }
  }

  predicate Terminal(status: string) {
    status == "completed" || status == "error"
  }

  function CountStatus(m: seq<Entry>, status: string): (n: nat)
    ensures n <= |m|
  {
    if m == [] then 0 else (if m[0].job.status == status then 1 else 0) + CountStatus(m[1..], status)
  }

  /** The members still in progress: status neither "completed" nor "error". */
  function Active(m: seq<Entry>): (r: seq<Entry>)
    ensures forall e :: e in r ==> e in m && !Terminal(e.job.status)
    ensures forall e :: e in m && !Terminal(e.job.status) ==> e in r
  {
    if m == [] then []
    else (if Terminal(m[0].job.status) then [] else [m[0]]) + Active(m[1..])
  }

  /** Every member is completed, failed or active. */
  lemma {:induction false} CountsPartition(m: seq<Entry>)
    ensures CountStatus(m, "completed") + CountStatus(m, "error") + |Active(m)| == |m|
    decreases |m|
  {
    if m != [] {
      CountsPartition(m[1..]);
    }
  }

  datatype Aggregate = Aggregate(status: string, total: nat, completed: nat, failed: nat, current: Option<string>)

  /** `get_album_aggregate(album_id, exclude_job_id=...)`. */
  function AlbumAggregate(rows: map<string, Job>, ids: seq<string>, albumId: string, exclude: Option<string>): Aggregate {
    var m := Members(rows, ids, albumId, exclude);
    var total := |m|;
    var completed := CountStatus(m, "completed");
    var failed := CountStatus(m, "error");
    var active := SortDesc(Active(m), UpdatedKey);
    var current := if active == [] then None else Some(active[0].id);
    var status := if total > 0 && completed + failed >= total then "completed" else "downloading";
    Aggregate(status, total, completed, failed, current)
  }

  /**
   * The counts never exceed the total; the album is "completed" exactly when it has tracks and
   * no current track; an empty group is "downloading" with zero counts and no current track.
   */
  lemma AggregateStatus(rows: map<string, Job>, ids: seq<string>, albumId: string, exclude: Option<string>)
    ensures var a := AlbumAggregate(rows, ids, albumId, exclude);
      && a.completed + a.failed <= a.total
      && (a.status == "completed" <==> a.total > 0 && a.completed + a.failed >= a.total)
      && (a.status == "completed" <==> a.total > 0 && a.current.None?)
      && (a.status == "completed" || a.status == "downloading")
      && (a.total == 0 ==> a.status == "downloading" && a.completed == 0 && a.failed == 0 && a.current.None?)
  {
    var m := Members(rows, ids, albumId, exclude);
    CountsPartition(m);
  }

  /**
   * The current track is a member of the group that is neither completed nor failed and was
   * updated no earlier than any other such member; there is none exactly when no member is active.
   */
  lemma AggregateCurrent(rows: map<string, Job>, ids: seq<string>, albumId: string, exclude: Option<string>)
    ensures var a := AlbumAggregate(rows, ids, albumId, exclude);
      var m := Members(rows, ids, albumId, exclude);
      && (a.current.None? <==> forall e :: e in m ==> Terminal(e.job.status))
      && (a.current.Some? ==>
            exists e :: e in m && e.id == a.current.value && !Terminal(e.job.status)
              && (forall f :: f in m && !Terminal(f.job.status) ==> e.job.updatedAt >= f.job.updatedAt))
  {
    var m := Members(rows, ids, albumId, exclude);
    LatestActive(m);
    var sorted := SortDesc(Active(m), UpdatedKey);
    if sorted != [] {
      var e := sorted[0];
      assert e in m && e.id == AlbumAggregate(rows, ids, albumId, exclude).current.value;
    }
  }

  /** The first of the active entries sorted by update time is an active entry updated no earlier than any other. */
  lemma LatestActive(m: seq<Entry>)
    ensures var sorted := SortDesc(Active(m), UpdatedKey);
      && (sorted == [] <==> forall e :: e in m ==> Terminal(e.job.status))
      && (sorted != [] ==>
            && sorted[0] in m && !Terminal(sorted[0].job.status)
            && forall f :: f in m && !Terminal(f.job.status) ==> sorted[0].job.updatedAt >= f.job.updatedAt)
  {
    var act := Active(m);
    var sorted := SortDesc(act, UpdatedKey);
    if sorted != [] {
      var e := sorted[0];
      assert e in multiset(act);
      forall f | f in m && !Terminal(f.job.status)
        ensures e.job.updatedAt >= f.job.updatedAt
      {
        SortDescFirstIsMax(act, UpdatedKey, f);
      }
    } else {
      assert act == [];
      assert forall e :: e in m ==> Terminal(e.job.status);
    }
  }
}
