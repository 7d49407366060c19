/** The mutations of convex/feedback.ts over the `feedback`, `feedbackStats`
    and `trendingTracks` tables: submitting, changing and withdrawing a
    reaction, the per-track statistics kept in step with them, and the
    periodic trending run. */
module FeedbackStore {
  import opened Common
  import opened Sorting
  import opened Feedback
  import opened Trending
  import Tracks

  const RATE_LIMIT_WINDOW: int := 60000
  const MAX_FEEDBACK_PER_WINDOW: nat := 30

  datatype FeedbackError = TrackNotFound | RateLimitExceeded | FeedbackNotFound | NotAuthorized

  /** JavaScript truthiness of an optional boolean argument. */
  predicate Flag(o: Option<bool>) {
    o == Some(true)
  }

  function BySince(u: UserId, since: int): Feedback -> bool {
    (f: Feedback) => f.userId == Some(u) && f.timestamp > since
  }

  /** The caller's rows of the last minute (`by_user`, `timestamp > now - 60000`). */
  function RecentByUser(rows: seq<Feedback>, u: UserId, now: int): seq<Feedback> {
    Filter(rows, BySince(u, now - RATE_LIMIT_WINDOW))
  }

  /** A signed-in caller with 30 or more rows stored under their id in the
      last minute is refused. Rows stored without a user id do not count. */
  predicate RateLimited(rows: seq<Feedback>, caller: Option<UserId>, now: int) {
    caller.Some? && |RecentByUser(rows, caller.value, now)| >= MAX_FEEDBACK_PER_WINDOW
  }

  function SameTrackUser(t: TrackId, u: UserId): Feedback -> bool {
    (f: Feedback) => f.trackId == t && f.userId == Some(u)
  }

  function SameSessionTrack(sid: string, t: TrackId): Feedback -> bool {
    (f: Feedback) => f.sessionId == sid && f.trackId == t
  }

  /** The earlier reaction a submission replaces: for a signed-in caller
      who is not anonymous, their row for the track; otherwise, when a
      session id is given, the session's row for the track. */
  function Existing(rows: seq<Feedback>, caller: Option<UserId>, trackId: TrackId,
                    isAnonymous: Option<bool>, sessionId: Option<string>): (r: Option<nat>)
    ensures r.Some? ==> r.value < |rows| && rows[r.value].trackId == trackId
    ensures caller.Some? && !Flag(isAnonymous) && r.Some? ==> rows[r.value].userId == caller
    ensures caller.Some? && !Flag(isAnonymous) ==>
      (r.None? <==> forall j :: 0 <= j < |rows| ==> !(rows[j].trackId == trackId && rows[j].userId == caller))
    ensures (caller.None? || Flag(isAnonymous)) && Truthy(sessionId) ==>
      && (r.Some? ==> rows[r.value].sessionId == sessionId.value)
      && (r.None? <==> forall j :: 0 <= j < |rows| ==> !(rows[j].sessionId == sessionId.value && rows[j].trackId == trackId))
    ensures (caller.None? || Flag(isAnonymous)) && !Truthy(sessionId) ==> r.None?
  {
    if caller.Some? && !Flag(isAnonymous) then FirstWhere(rows, SameTrackUser(trackId, caller.value))
    else if Truthy(sessionId) then FirstWhere(rows, SameSessionTrack(sessionId.value, trackId))
    else None
  }

  /** The row a first submission inserts. The session id defaults to
      "anon_<now>_<nonce>", where the nonce stands for `Math.random()`. */
  function NewRow(id: FeedbackId, trackId: TrackId, caller: Option<UserId>, kind: FeedbackType,
                  isAnonymous: Option<bool>, deviceType: Option<string>, sessionId: Option<string>,
                  now: nat, nonce: string): (r: Feedback)
    ensures r.id == id && r.trackId == trackId && r.kind == kind && r.timestamp == now
    ensures r.userId.None? <==> Flag(isAnonymous) || caller.None?
    ensures r.userId.Some? ==> r.userId == caller
    ensures r.isAnonymous <==> isAnonymous == Some(true)
    ensures r.deviceType == if Truthy(deviceType) then deviceType.value else "unknown"
    ensures r.sessionId != ""
    ensures Truthy(sessionId) ==> r.sessionId == sessionId.value
    ensures !Truthy(sessionId) ==> |r.sessionId| > 5 && r.sessionId[..5] == "anon_"
  {
    Feedback(id, trackId, if Flag(isAnonymous) || caller.None? then None else caller, kind, now,
             Flag(isAnonymous), OrElse(deviceType, "unknown"),
             OrElse(sessionId, "anon_" + NatToString(now) + "_" + nonce))
  }

  /** The feedback table after a successful submission and the id returned. */
  function SubmitRows(rows: seq<Feedback>, id: FeedbackId, caller: Option<UserId>, trackId: TrackId,
                      kind: FeedbackType, isAnonymous: Option<bool>, deviceType: Option<string>,
                      sessionId: Option<string>, now: nat, nonce: string): (seq<Feedback>, FeedbackId)
  {
    match Existing(rows, caller, trackId, isAnonymous, sessionId)
    case Some(k) =>
      (rows[k := rows[k].(kind := kind, timestamp := now, deviceType := OrElse(deviceType, "unknown"))], rows[k].id)
    case None =>
      (rows + [NewRow(id, trackId, caller, kind, isAnonymous, deviceType, sessionId, now, nonce)], id)
  }

  /** The guards of `submitFeedback`: the track exists, then the rate limit. */
  function SubmitCheck(tracks: seq<Tracks.Track>, rows: seq<Feedback>, caller: Option<UserId>,
                       trackId: TrackId, now: int): (r: Option<FeedbackError>)
    ensures r == Some(TrackNotFound) <==> Tracks.FindTrack(tracks, trackId).None?
    ensures r == Some(RateLimitExceeded) <==> Tracks.FindTrack(tracks, trackId).Some? && RateLimited(rows, caller, now)
    ensures r.None? <==> Tracks.FindTrack(tracks, trackId).Some? && !RateLimited(rows, caller, now)
  {
    if Tracks.FindTrack(tracks, trackId).None? then Some(TrackNotFound)
    else if RateLimited(rows, caller, now) then Some(RateLimitExceeded)
    else None
  }

  /** `feedback.isAnonymous || feedback.userId === userId`: JavaScript's
      `undefined !== null`, so a row stored without a user id matches no
      caller, signed in or not. */
  predicate CanModify(row: Feedback, caller: Option<UserId>) {
    row.isAnonymous || (row.userId.Some? && caller == row.userId)
  }

  function WithId(id: FeedbackId): Feedback -> bool {
    (f: Feedback) => f.id == id
  }

  /** The guards of `updateFeedback` and `deleteFeedback`: the row exists,
      then the caller may change it. On success, the row's position. */
  function ModifyCheck(rows: seq<Feedback>, caller: Option<UserId>, id: FeedbackId): (r: Result<nat, FeedbackError>)
    ensures r.Ok? ==> r.value < |rows| && rows[r.value].id == id && CanModify(rows[r.value], caller)
    ensures r == Err(FeedbackNotFound) <==> forall j :: 0 <= j < |rows| ==> rows[j].id != id
    ensures r == Err(NotAuthorized) <==> exists j :: FirstWhere(rows, WithId(id)) == Some(j) && !CanModify(rows[j], caller)
  {
    match FirstWhere(rows, WithId(id))
    case None => Err(FeedbackNotFound)
    case Some(k) => if CanModify(rows[k], caller) then Ok(k) else Err(NotAuthorized)
  }

  /** A row that is neither anonymous nor stored under a user id (a
      signed-out, non-anonymous submission) can be changed by nobody. */
  lemma LockedRow(rows: seq<Feedback>, caller: Option<UserId>, k: nat)
    requires k < |rows| && (forall j :: 0 <= j < k ==> rows[j].id != rows[k].id)
    requires !rows[k].isAnonymous && rows[k].userId.None?
    ensures ModifyCheck(rows, caller, rows[k].id) == Err(NotAuthorized)
  {
  }

  /** An anonymous row can be changed by any caller, and a row stored under
      a user id by that user. */
  lemma OwnerMayModify(rows: seq<Feedback>, k: nat, caller: Option<UserId>)
    requires k < |rows| && (forall j :: 0 <= j < k ==> rows[j].id != rows[k].id)
    requires rows[k].isAnonymous || (rows[k].userId.Some? && caller == rows[k].userId)
    ensures ModifyCheck(rows, caller, rows[k].id) == Ok(k)
  {
    FirstWhereAt(rows, WithId(rows[k].id), k);
  }

  function StatsOf(t: TrackId): FeedbackStats -> bool {
    (s: FeedbackStats) => s.trackId == t
  }

  /** The stats row of a track (`by_track`, `.first()`). */
  function StatsFor(stats: seq<FeedbackStats>, t: TrackId): (r: Option<FeedbackStats>)
    ensures r.Some? ==> r.value in stats && r.value.trackId == t
    ensures r.None? <==> forall j :: 0 <= j < |stats| ==> stats[j].trackId != t
  {
    match FirstWhere(stats, StatsOf(t))
    case Some(k) => Some(stats[k])
    case None => None
  }

  /** The stats table after `updateFeedbackStats` wrote `row`: the track's
      row is overwritten, or added when the track had none. */
  function Upsert(stats: seq<FeedbackStats>, row: FeedbackStats): seq<FeedbackStats> {
    match FirstWhere(stats, StatsOf(row.trackId))
    case Some(k) => stats[k := row]
    case None => stats + [row]
  }

  /** `getFeedbackStats`: the track's stats row, or an all-zero row
      stamped with the current time when it has none. */
  function GetFeedbackStats(stats: seq<FeedbackStats>, t: TrackId, now: int): FeedbackStats {
    match StatsFor(stats, t)
    case Some(s) => s
    case None => FeedbackStats(t, 0, 0, 0, 0, 0, 0.0, now)
  }

  predicate DistinctStatsTracks(stats: seq<FeedbackStats>) {
    forall i, j :: 0 <= i < j < |stats| ==> stats[i].trackId != stats[j].trackId
  }

  /** The stats table is in step with the feedback table: one row per
      track, each the tally of that track's current rows, and a row for
      every track that has feedback. */
  predicate Consistent(rows: seq<Feedback>, stats: seq<FeedbackStats>) {
    && DistinctStatsTracks(stats)
    && (forall i :: 0 <= i < |stats| ==> StatsAgree(stats[i], rows))
    && (forall i :: 0 <= i < |rows| ==> StatsFor(stats, rows[i].trackId).Some?)
  }

  /** A signed-in, non-anonymous user has at most one row per track. */
  predicate OneRowPerUser(rows: seq<Feedback>) {
    forall i, j :: 0 <= i < j < |rows| && rows[i].userId.Some? ==>
      !(rows[i].trackId == rows[j].trackId && rows[i].userId == rows[j].userId)
  }

  predicate DistinctFeedbackIds(rows: seq<Feedback>) {
    forall i, j :: 0 <= i < j < |rows| ==> rows[i].id != rows[j].id
  }

  /** When the tables are consistent, `getFeedbackStats` reports exactly the
      tally of the track's feedback rows, whether or not a stats row exists. */
  lemma StatsQueryMatchesFeedback(rows: seq<Feedback>, stats: seq<FeedbackStats>, t: TrackId, now: int)
    requires Consistent(rows, stats)
    ensures var r := GetFeedbackStats(stats, t, now);
      && r.trackId == t
      && r.loveCount == CountOf(RowsFor(rows, t), Love)
      && r.likeCount == CountOf(RowsFor(rows, t), Like)
      && r.mehCount == CountOf(RowsFor(rows, t), Meh)
      && r.dislikeCount == CountOf(RowsFor(rows, t), Dislike)
      && r.totalFeedback == |RowsFor(rows, t)|
      && r.averageRating == Average(RowsFor(rows, t))
  {
    match StatsFor(stats, t)
    case Some(s) =>
      var k :| 0 <= k < |stats| && stats[k] == s;
      assert StatsAgree(stats[k], rows);
    case None =>
  }

  /** The other tracks' stats rows stay in step when only track `t`'s
      feedback changed and its stats row is rewritten. */
  lemma UpsertKeepsConsistent(rows: seq<Feedback>, rows': seq<Feedback>, stats: seq<FeedbackStats>,
                              t: TrackId, now: int)
    requires Consistent(rows, stats)
    requires forall u :: u != t ==> RowsFor(rows', u) == RowsFor(rows, u)
    requires forall i :: 0 <= i < |rows'| ==> rows'[i].trackId == t || StatsFor(stats, rows'[i].trackId).Some?
    ensures Consistent(rows', Upsert(stats, Tallied(RowsFor(rows', t), t, now)))
  {
    var row := Tallied(RowsFor(rows', t), t, now);
    UpsertShape(stats, row);
    UpsertAgrees(rows, rows', stats, row);
    UpsertCovers(rows', stats, row);
  }

  /** Upserting keeps one row per track and leaves the other tracks' rows. */
  lemma UpsertShape(stats: seq<FeedbackStats>, row: FeedbackStats)
    requires DistinctStatsTracks(stats)
    ensures var s' := Upsert(stats, row);
      && DistinctStatsTracks(s')
      && StatsFor(s', row.trackId) == Some(row)
      && (forall i :: 0 <= i < |s'| ==> s'[i] == row || (s'[i] in stats && s'[i].trackId != row.trackId))
      && (forall i :: 0 <= i < |stats| && stats[i].trackId != row.trackId ==> stats[i] in s')
  {
    var s' := Upsert(stats, row);
    match FirstWhere(stats, StatsOf(row.trackId)) {
      case Some(k) =>
        forall i | 0 <= i < |stats| && stats[i].trackId != row.trackId ensures stats[i] in s' {
          assert s'[i] == stats[i];
        }
        forall j | 0 <= j < k ensures !StatsOf(row.trackId)(s'[j]) {
          assert s'[j] == stats[j];
        }
        FirstWhereAt(s', StatsOf(row.trackId), k);
      case None =>
        forall i | 0 <= i < |stats| && stats[i].trackId != row.trackId ensures stats[i] in s' {
          assert s'[i] == stats[i];
        }
        forall j | 0 <= j < |stats| ensures !StatsOf(row.trackId)(s'[j]) {
          assert s'[j] == stats[j];
        }
        FirstWhereAt(s', StatsOf(row.trackId), |stats|);
    }
  }

  lemma UpsertAgrees(rows: seq<Feedback>, rows': seq<Feedback>, stats: seq<FeedbackStats>, row: FeedbackStats)
    requires DistinctStatsTracks(stats) && forall i :: 0 <= i < |stats| ==> StatsAgree(stats[i], rows)
    requires forall u :: u != row.trackId ==> RowsFor(rows', u) == RowsFor(rows, u)
    requires StatsAgree(row, rows')
    ensures forall i :: 0 <= i < |Upsert(stats, row)| ==> StatsAgree(Upsert(stats, row)[i], rows')
  {
    var s' := Upsert(stats, row);
    UpsertShape(stats, row);
    forall i | 0 <= i < |s'| ensures StatsAgree(s'[i], rows') {
      if s'[i] != row {
        var j :| 0 <= j < |stats| && stats[j] == s'[i];
        assert StatsAgree(stats[j], rows);
      }
    }
  }

  lemma UpsertCovers(rows': seq<Feedback>, stats: seq<FeedbackStats>, row: FeedbackStats)
    requires DistinctStatsTracks(stats)
    requires forall i :: 0 <= i < |rows'| ==> rows'[i].trackId == row.trackId || StatsFor(stats, rows'[i].trackId).Some?
    ensures forall i :: 0 <= i < |rows'| ==> StatsFor(Upsert(stats, row), rows'[i].trackId).Some?
  {
    var s' := Upsert(stats, row);
    UpsertShape(stats, row);
    forall i | 0 <= i < |rows'| ensures StatsFor(s', rows'[i].trackId).Some? {
      var u := rows'[i].trackId;
      if u != row.trackId {
        var x := StatsFor(stats, u).value;
        var j :| 0 <= j < |stats| && stats[j] == x;
        assert x in s';
        var m :| 0 <= m < |s'| && s'[m] == x;
        assert s'[m].trackId == u;
      }
    }
  }

  /** Rewriting row `k` without touching its id, user or track keeps the
      table's per-row invariants and every other track's rows. */
  lemma PatchKeeps(rows: seq<Feedback>, k: nat, row: Feedback)
    requires k < |rows| && row.id == rows[k].id && row.userId == rows[k].userId && row.trackId == rows[k].trackId
    ensures DistinctFeedbackIds(rows) ==> DistinctFeedbackIds(rows[k := row])
    ensures OneRowPerUser(rows) ==> OneRowPerUser(rows[k := row])
    ensures forall u :: u != row.trackId ==> RowsFor(rows[k := row], u) == RowsFor(rows, u)
  {
    forall u | u != row.trackId ensures RowsFor(rows[k := row], u) == RowsFor(rows, u) {
      RowsForUpdateOther(rows, k, row, u);
    }
  }

  /** Removing row `k` keeps the table's per-row invariants and every other
      track's rows. */
  lemma RemoveKeeps(rows: seq<Feedback>, k: nat)
    requires k < |rows|
    ensures var rows' := rows[..k] + rows[k + 1..];
      && (DistinctFeedbackIds(rows) ==> DistinctFeedbackIds(rows'))
      && (OneRowPerUser(rows) ==> OneRowPerUser(rows'))
      && (forall i :: 0 <= i < |rows'| ==> rows'[i] in rows)
      && (forall u :: u != rows[k].trackId ==> RowsFor(rows', u) == RowsFor(rows, u))
  {
    var rows' := rows[..k] + rows[k + 1..];
    assert forall m :: 0 <= m < |rows'| ==> rows'[m] == if m < k then rows[m] else rows[m + 1];
    forall u | u != rows[k].trackId ensures RowsFor(rows', u) == RowsFor(rows, u) {
      RowsForRemoveOther(rows, k, u);
    }
  }

  /** A submission only touches the submitted track: it rewrites that
      track's existing row (same id, user and track) or appends one new row,
      and every other track keeps its rows. */
  lemma SubmitShape(rows: seq<Feedback>, id: FeedbackId, caller: Option<UserId>, trackId: TrackId,
                    kind: FeedbackType, isAnonymous: Option<bool>, deviceType: Option<string>,
                    sessionId: Option<string>, now: nat, nonce: string)
    ensures var (rows', fid) := SubmitRows(rows, id, caller, trackId, kind, isAnonymous, deviceType, sessionId, now, nonce);
      && |rows'| == |rows| + (if Existing(rows, caller, trackId, isAnonymous, sessionId).None? then 1 else 0)
      && (forall i :: 0 <= i < |rows| ==>
            rows'[i] == rows[i] ||
            (rows'[i].id == rows[i].id && rows'[i].userId == rows[i].userId && rows'[i].trackId == trackId == rows[i].trackId))
      && (|rows'| > |rows| ==> rows'[|rows|] == NewRow(id, trackId, caller, kind, isAnonymous, deviceType, sessionId, now, nonce))
      && (forall u :: u != trackId ==> RowsFor(rows', u) == RowsFor(rows, u))
  {
    match Existing(rows, caller, trackId, isAnonymous, sessionId) {
      case Some(k) =>
        PatchKeeps(rows, k, rows[k].(kind := kind, timestamp := now, deviceType := OrElse(deviceType, "unknown")));
      case None =>
        forall u | u != trackId
          ensures RowsFor(rows + [NewRow(id, trackId, caller, kind, isAnonymous, deviceType, sessionId, now, nonce)], u) == RowsFor(rows, u)
        {
          RowsForAppendOther(rows, NewRow(id, trackId, caller, kind, isAnonymous, deviceType, sessionId, now, nonce), u);
        }
    }
  }

  /** After a submission the table holds a row for the track with the
      submitted reaction and time, under the returned id. */
  lemma SubmitRecords(rows: seq<Feedback>, id: FeedbackId, caller: Option<UserId>, trackId: TrackId,
                      kind: FeedbackType, isAnonymous: Option<bool>, deviceType: Option<string>,
                      sessionId: Option<string>, now: nat, nonce: string)
    ensures var (rows', fid) := SubmitRows(rows, id, caller, trackId, kind, isAnonymous, deviceType, sessionId, now, nonce);
      exists i :: 0 <= i < |rows'| && rows'[i].id == fid && rows'[i].trackId == trackId &&
                  rows'[i].kind == kind && rows'[i].timestamp == now &&
                  rows'[i].deviceType == OrElse(deviceType, "unknown")
  {
    var (rows', fid) := SubmitRows(rows, id, caller, trackId, kind, isAnonymous, deviceType, sessionId, now, nonce);
    match Existing(rows, caller, trackId, isAnonymous, sessionId) {
      case Some(k) => assert rows'[k].id == fid;
      case None => assert rows'[|rows|].id == fid;
    }
  }

  /** Submissions never give a signed-in, non-anonymous user a second row
      for the same track. */
  lemma SubmitKeepsOneRowPerUser(rows: seq<Feedback>, id: FeedbackId, caller: Option<UserId>, trackId: TrackId,
                                 kind: FeedbackType, isAnonymous: Option<bool>, deviceType: Option<string>,
                                 sessionId: Option<string>, now: nat, nonce: string)
    requires OneRowPerUser(rows)
    ensures OneRowPerUser(SubmitRows(rows, id, caller, trackId, kind, isAnonymous, deviceType, sessionId, now, nonce).0)
  {
    match Existing(rows, caller, trackId, isAnonymous, sessionId) {
      case Some(k) =>
        PatchKeeps(rows, k, rows[k].(kind := kind, timestamp := now, deviceType := OrElse(deviceType, "unknown")));
      case None =>
        var row := NewRow(id, trackId, caller, kind, isAnonymous, deviceType, sessionId, now, nonce);
        var rows' := rows + [row];
        forall i, j | 0 <= i < j < |rows'| && rows'[i].userId.Some?
          ensures !(rows'[i].trackId == rows'[j].trackId && rows'[i].userId == rows'[j].userId)
        {
          assert rows'[i] == rows[i];
        }
    }
  }

  /** A signed-in, non-anonymous user who reacts to a track again changes
      their earlier row: the table does not grow, the same id is returned
      and the row holds the new reaction. */
  lemma ResubmitReplaces(rows: seq<Feedback>, id: FeedbackId, id2: FeedbackId, u: UserId, trackId: TrackId,
                         k1: FeedbackType, k2: FeedbackType, isAnonymous: Option<bool>, deviceType: Option<string>,
                         sessionId: Option<string>, now: nat, now2: nat, nonce: string, nonce2: string)
    requires OneRowPerUser(rows) && !Flag(isAnonymous)
    ensures var (rows1, fid1) := SubmitRows(rows, id, Some(u), trackId, k1, isAnonymous, deviceType, sessionId, now, nonce);
      var (rows2, fid2) := SubmitRows(rows1, id2, Some(u), trackId, k2, isAnonymous, deviceType, sessionId, now2, nonce2);
      && |rows2| == |rows1|
      && fid2 == fid1
      && exists i :: 0 <= i < |rows2| && rows2[i].id == fid2 && rows2[i].kind == k2 && rows2[i].userId == Some(u)
  {
    var (rows1, fid1) := SubmitRows(rows, id, Some(u), trackId, k1, isAnonymous, deviceType, sessionId, now, nonce);
    SubmitKeepsOneRowPerUser(rows, id, Some(u), trackId, k1, isAnonymous, deviceType, sessionId, now, nonce);
    var k := OwnRow(rows, id, u, trackId, k1, isAnonymous, deviceType, sessionId, now, nonce);
    OnlyRow(rows1, u, trackId, k, isAnonymous, sessionId);
    var rows2 := rows1[k := rows1[k].(kind := k2, timestamp := now2, deviceType := OrElse(deviceType, "unknown"))];
    assert SubmitRows(rows1, id2, Some(u), trackId, k2, isAnonymous, deviceType, sessionId, now2, nonce2) == (rows2, fid1);
    assert rows2[k].id == fid1 && rows2[k].kind == k2 && rows2[k].userId == Some(u);
  }

  /** After a signed-out or anonymous submission with a session id, the
      first row of that session and track is the submission's row. */
  lemma SessionRowAfterSubmit(rows: seq<Feedback>, id: FeedbackId, caller: Option<UserId>, trackId: TrackId,
                              kind: FeedbackType, isAnonymous: Option<bool>, deviceType: Option<string>,
                              sessionId: Option<string>, now: nat, nonce: string) returns (k: nat)
    requires (caller.None? || Flag(isAnonymous)) && Truthy(sessionId)
    ensures var (rows1, fid1) := SubmitRows(rows, id, caller, trackId, kind, isAnonymous, deviceType, sessionId, now, nonce);
      k < |rows1| && rows1[k].id == fid1 && FirstWhere(rows1, SameSessionTrack(sessionId.value, trackId)) == Some(k)
  {
    var p := SameSessionTrack(sessionId.value, trackId);
    var (rows1, fid1) := SubmitRows(rows, id, caller, trackId, kind, isAnonymous, deviceType, sessionId, now, nonce);
    match FirstWhere(rows, p)
    case Some(j) =>
      k := j;
      assert forall i :: 0 <= i < k ==> rows1[i] == rows[i];
      FirstWhereAt(rows1, p, k);
    case None =>
      k := |rows|;
      assert forall i :: 0 <= i < k ==> rows1[i] == rows[i];
      FirstWhereAt(rows1, p, k);
  }

  /** A signed-out or anonymous caller who reacts to a track again under
      the same session id changes the session's earlier row: the table does
      not grow, the same id is returned and the row holds the new reaction. */
  lemma SessionResubmitReplaces(rows: seq<Feedback>, id: FeedbackId, id2: FeedbackId, caller: Option<UserId>,
                                trackId: TrackId, k1: FeedbackType, k2: FeedbackType, isAnonymous: Option<bool>,
                                deviceType: Option<string>, sessionId: Option<string>, now: nat, now2: nat,
                                nonce: string, nonce2: string)
    requires (caller.None? || Flag(isAnonymous)) && Truthy(sessionId)
    ensures var (rows1, fid1) := SubmitRows(rows, id, caller, trackId, k1, isAnonymous, deviceType, sessionId, now, nonce);
      var (rows2, fid2) := SubmitRows(rows1, id2, caller, trackId, k2, isAnonymous, deviceType, sessionId, now2, nonce2);
      && |rows2| == |rows1|
      && fid2 == fid1
      && exists i :: 0 <= i < |rows2| && rows2[i].id == fid2 && rows2[i].kind == k2 &&
                     rows2[i].sessionId == sessionId.value && rows2[i].trackId == trackId
  {
    var p := SameSessionTrack(sessionId.value, trackId);
    var (rows1, fid1) := SubmitRows(rows, id, caller, trackId, k1, isAnonymous, deviceType, sessionId, now, nonce);
    var k := SessionRowAfterSubmit(rows, id, caller, trackId, k1, isAnonymous, deviceType, sessionId, now, nonce);
    assert Existing(rows1, caller, trackId, isAnonymous, sessionId) == Some(k);
    var rows2 := rows1[k := rows1[k].(kind := k2, timestamp := now2, deviceType := OrElse(deviceType, "unknown"))];
    assert SubmitRows(rows1, id2, caller, trackId, k2, isAnonymous, deviceType, sessionId, now2, nonce2) == (rows2, fid1);
    assert rows2[k].id == fid1 && rows2[k].kind == k2;
  }

  /** Where a signed-in, non-anonymous submission leaves the user's row. */
  lemma OwnRow(rows: seq<Feedback>, id: FeedbackId, u: UserId, trackId: TrackId, kind: FeedbackType,
               isAnonymous: Option<bool>, deviceType: Option<string>, sessionId: Option<string>,
               now: nat, nonce: string) returns (k: nat)
    requires !Flag(isAnonymous)
    ensures var (rows1, fid1) := SubmitRows(rows, id, Some(u), trackId, kind, isAnonymous, deviceType, sessionId, now, nonce);
      k < |rows1| && rows1[k].id == fid1 && rows1[k].trackId == trackId && rows1[k].userId == Some(u)
  {
    match Existing(rows, Some(u), trackId, isAnonymous, sessionId) {
      case Some(j) => k := j;
      case None => k := |rows|;
    }
  }

  /** With one row per user and track, that row is the one a later
      submission by the same user finds. */
  lemma OnlyRow(rows: seq<Feedback>, u: UserId, trackId: TrackId, k: nat, isAnonymous: Option<bool>, sessionId: Option<string>)
    requires OneRowPerUser(rows) && !Flag(isAnonymous)
    requires k < |rows| && rows[k].trackId == trackId && rows[k].userId == Some(u)
    ensures Existing(rows, Some(u), trackId, isAnonymous, sessionId) == Some(k)
  {
  }

  /** The invariant of the three tables: distinct feedback ids below the
      next id, one row per signed-in user and track, stats in step. */
  predicate Tables(rows: seq<Feedback>, stats: seq<FeedbackStats>, nextId: nat) {
    && DistinctFeedbackIds(rows)
    && (forall i :: 0 <= i < |rows| ==> rows[i].id < nextId)
    && OneRowPerUser(rows)
    && Consistent(rows, stats)
  }

  /** Keeping every id and appending at most one row with the next id keeps
      the ids distinct and below the (advanced) next id. */
  lemma SameIdsPlusOne(rows: seq<Feedback>, rows': seq<Feedback>, nextId: nat)
    requires DistinctFeedbackIds(rows) && forall i :: 0 <= i < |rows| ==> rows[i].id < nextId
    requires |rows| <= |rows'| <= |rows| + 1
    requires forall i :: 0 <= i < |rows| ==> rows'[i].id == rows[i].id
    requires |rows'| > |rows| ==> rows'[|rows|].id == nextId
    ensures DistinctFeedbackIds(rows')
    ensures forall i :: 0 <= i < |rows'| ==> rows'[i].id < if |rows'| > |rows| then nextId + 1 else nextId
  {
  }

  /** A successful submission followed by the stats recount keeps the
      invariant. */
  lemma SubmitPreserves(rows: seq<Feedback>, stats: seq<FeedbackStats>, nextId: nat, caller: Option<UserId>,
                        trackId: TrackId, kind: FeedbackType, isAnonymous: Option<bool>,
                        deviceType: Option<string>, sessionId: Option<string>, now: nat, nonce: string)
    requires Tables(rows, stats, nextId)
    ensures var (rows', fid) := SubmitRows(rows, nextId, caller, trackId, kind, isAnonymous, deviceType, sessionId, now, nonce);
      Tables(rows', Upsert(stats, Tallied(RowsFor(rows', trackId), trackId, now)),
             if |rows'| > |rows| then nextId + 1 else nextId)
  {
    var (rows', fid) := SubmitRows(rows, nextId, caller, trackId, kind, isAnonymous, deviceType, sessionId, now, nonce);
    var next' := if |rows'| > |rows| then nextId + 1 else nextId;
    SubmitShape(rows, nextId, caller, trackId, kind, isAnonymous, deviceType, sessionId, now, nonce);
    SubmitKeepsOneRowPerUser(rows, nextId, caller, trackId, kind, isAnonymous, deviceType, sessionId, now, nonce);
    SameIdsPlusOne(rows, rows', nextId);
    forall i | 0 <= i < |rows'| ensures rows'[i].trackId == trackId || StatsFor(stats, rows'[i].trackId).Some? {
      if i < |rows| && rows'[i].trackId != trackId {
        assert rows'[i] == rows[i];
      }
    }
    UpsertKeepsConsistent(rows, rows', stats, trackId, now);
  }

  /** Changing a row's reaction and time keeps the invariant. */
  lemma UpdatePreserves(rows: seq<Feedback>, stats: seq<FeedbackStats>, nextId: nat, k: nat, kind: FeedbackType, now: int)
    requires Tables(rows, stats, nextId) && k < |rows|
    ensures var rows' := rows[k := rows[k].(kind := kind, timestamp := now)];
      Tables(rows', Upsert(stats, Tallied(RowsFor(rows', rows[k].trackId), rows[k].trackId, now)), nextId)
  {
    var row := rows[k].(kind := kind, timestamp := now);
    var rows' := rows[k := row];
    PatchKeeps(rows, k, row);
    forall i | 0 <= i < |rows'|
      ensures rows'[i].id < nextId
      ensures rows'[i].trackId == row.trackId || StatsFor(stats, rows'[i].trackId).Some?
    {
      if i != k {
        assert rows'[i] == rows[i];
      }
    }
    UpsertKeepsConsistent(rows, rows', stats, row.trackId, now);
  }

  /** Removing a row keeps the invariant. */
  lemma DeletePreserves(rows: seq<Feedback>, stats: seq<FeedbackStats>, nextId: nat, k: nat, now: int)
    requires Tables(rows, stats, nextId) && k < |rows|
    ensures var rows' := rows[..k] + rows[k + 1..];
      Tables(rows', Upsert(stats, Tallied(RowsFor(rows', rows[k].trackId), rows[k].trackId, now)), nextId)
  {
    var rows' := rows[..k] + rows[k + 1..];
    RemoveKeeps(rows, k);
    forall i | 0 <= i < |rows'| ensures StatsFor(stats, rows'[i].trackId).Some? && rows'[i].id < nextId {
      var j :| 0 <= j < |rows| && rows[j] == rows'[i];
    }
    UpsertKeepsConsistent(rows, rows', stats, rows[k].trackId, now);
  }

  class FeedbackDb {
    var feedback: seq<Feedback>
    var stats: seq<FeedbackStats>
    var trending: seq<TrendingEntry>
    var nextId: nat

    ghost predicate Valid()
      reads this
    {
      Tables(feedback, stats, nextId)
    }

    constructor ()
      ensures Valid() && feedback == [] && stats == [] && trending == []
    {
      feedback, stats, trending, nextId := [], [], [], 0;
    }

    /** `updateFeedbackStats`: recount the track's rows and write the result
        over the track's stats row, or add one. */
    method UpdateFeedbackStats(trackId: TrackId, now: int)
      modifies this
      ensures stats == Upsert(old(stats), Tallied(RowsFor(feedback, trackId), trackId, now))
      ensures feedback == old(feedback) && trending == old(trending) && nextId == old(nextId)
    {
      var allFeedback := RowsFor(feedback, trackId);
      var row := ComputeStats(allFeedback, trackId, now);
      match FirstWhere(stats, StatsOf(trackId)) {
        case Some(k) => stats := stats[k := row];
        case None => stats := stats + [row];
      }
    }

    /** The write step of `submitFeedback`: the earlier row of the caller
        (or the session) for the track is patched, or a new row is inserted
        under the next id. */
    method WriteFeedback(caller: Option<UserId>, trackId: TrackId, kind: FeedbackType,
                         isAnonymous: Option<bool>, deviceType: Option<string>, sessionId: Option<string>,
                         now: nat, nonce: string)
      returns (feedbackId: FeedbackId)
      modifies this
      ensures (feedback, feedbackId) == SubmitRows(old(feedback), old(nextId), caller, trackId, kind, isAnonymous,
                                                   deviceType, sessionId, now, nonce)
      ensures nextId == if |feedback| > |old(feedback)| then old(nextId) + 1 else old(nextId)
      ensures stats == old(stats) && trending == old(trending)
    {
      match Existing(feedback, caller, trackId, isAnonymous, sessionId) {
        case Some(k) =>
          feedbackId := feedback[k].id;
          feedback := feedback[k := feedback[k].(kind := kind, timestamp := now, deviceType := OrElse(deviceType, "unknown"))];
        case None =>
          feedback := feedback + [NewRow(nextId, trackId, caller, kind, isAnonymous, deviceType, sessionId, now, nonce)];
          feedbackId := nextId;
          nextId := nextId + 1;
      }
    }

    /** `submitFeedback`: after the track and rate-limit guards, the
        caller's (or the session's) earlier row for the track is rewritten,
        or a new row is added; then the track's stats are recomputed. */
    method SubmitFeedback(tracks: seq<Tracks.Track>, caller: Option<UserId>, trackId: TrackId, kind: FeedbackType,
                          isAnonymous: Option<bool>, deviceType: Option<string>, sessionId: Option<string>,
                          now: nat, nonce: string)
      returns (r: Result<FeedbackId, FeedbackError>)
      requires Valid()
      modifies this
      ensures Valid()
      ensures r.Err? <==> SubmitCheck(tracks, old(feedback), caller, trackId, now).Some?
      ensures r.Err? ==> r.error == SubmitCheck(tracks, old(feedback), caller, trackId, now).value &&
                         feedback == old(feedback) && stats == old(stats) && nextId == old(nextId)
      ensures r.Ok? ==> nextId == if |feedback| > |old(feedback)| then old(nextId) + 1 else old(nextId)
      ensures r.Ok? ==>
                (feedback, r.value) == SubmitRows(old(feedback), old(nextId), caller, trackId, kind, isAnonymous,
                                                  deviceType, sessionId, now, nonce) &&
                stats == Upsert(old(stats), Tallied(RowsFor(feedback, trackId), trackId, now))
      ensures trending == old(trending)
    {
      var check := SubmitCheck(tracks, feedback, caller, trackId, now);
      if check.Some? {
        return Err(check.value);
      }
      SubmitPreserves(feedback, stats, nextId, caller, trackId, kind, isAnonymous, deviceType, sessionId, now, nonce);
      var feedbackId := WriteFeedback(caller, trackId, kind, isAnonymous, deviceType, sessionId, now, nonce);
      UpdateFeedbackStats(trackId, now);
      r := Ok(feedbackId);
    }

    /** `updateFeedback`: after the existence and ownership guards, the row
        takes the new reaction and the current time; the track's stats are
        recomputed. */
    method UpdateFeedback(caller: Option<UserId>, id: FeedbackId, kind: FeedbackType, now: int)
      returns (r: Result<Unit, FeedbackError>)
      requires Valid()
      modifies this
      ensures Valid()
      ensures r.Err? <==> ModifyCheck(old(feedback), caller, id).Err?
      ensures r.Err? ==> r.error == ModifyCheck(old(feedback), caller, id).error &&
                         feedback == old(feedback) && stats == old(stats)
      ensures r.Ok? ==>
                var k := ModifyCheck(old(feedback), caller, id).value;
                feedback == old(feedback)[k := old(feedback)[k].(kind := kind, timestamp := now)] &&
                stats == Upsert(old(stats), Tallied(RowsFor(feedback, old(feedback)[k].trackId), old(feedback)[k].trackId, now))
      ensures trending == old(trending) && nextId == old(nextId)
    {
      var check := ModifyCheck(feedback, caller, id);
      if check.Err? {
        return Err(check.error);
      }
      var k := check.value;
      var trackId := feedback[k].trackId;
      UpdatePreserves(feedback, stats, nextId, k, kind, now);
      feedback := feedback[k := feedback[k].(kind := kind, timestamp := now)];
      UpdateFeedbackStats(trackId, now);
      r := Ok(Unit);
    }

    /** `deleteFeedback`: after the existence and ownership guards, the row
        is removed and the track's stats are recomputed. */
    method DeleteFeedback(caller: Option<UserId>, id: FeedbackId, now: int)
      returns (r: Result<Unit, FeedbackError>)
      requires Valid()
      modifies this
      ensures Valid()
      ensures r.Err? <==> ModifyCheck(old(feedback), caller, id).Err?
      ensures r.Err? ==> r.error == ModifyCheck(old(feedback), caller, id).error &&
                         feedback == old(feedback) && stats == old(stats)
      ensures r.Ok? ==>
                var k := ModifyCheck(old(feedback), caller, id).value;
                feedback == old(feedback)[..k] + old(feedback)[k + 1..] &&
                stats == Upsert(old(stats), Tallied(RowsFor(feedback, old(feedback)[k].trackId), old(feedback)[k].trackId, now))
      ensures trending == old(trending) && nextId == old(nextId)
    {
      var check := ModifyCheck(feedback, caller, id);
      if check.Err? {
        return Err(check.error);
      }
      var k := check.value;
      var trackId := feedback[k].trackId;
      DeletePreserves(feedback, stats, nextId, k, now);
      feedback := feedback[..k] + feedback[k + 1..];
      UpdateFeedbackStats(trackId, now);
      r := Ok(Unit);
    }

    /** `calculateTrendingScores`: score the recent feedback, drop the
        timeframe's old entries, insert the new ranking; report the number
        of scored tracks and the label. */
    method CalculateTrendingScores(timeframe: string, now: nat) returns (processed: nat, frame: string)
      modifies this
      ensures trending == OtherTimeframes(old(trending), timeframe) + TrendingFor(feedback, timeframe, now)
      ensures processed == ProcessedFor(feedback, timeframe, now) && frame == timeframe
      ensures feedback == old(feedback) && stats == old(stats) && nextId == old(nextId)
    {
      var timeWindow := WindowOf(timeframe);
      var cutoffTime := now - timeWindow;
      assert cutoffTime == CutoffOf(timeframe, now);
      var recentFeedback := Recent(feedback, cutoffTime);
      var trackScores := AggregateScores(recentFeedback, cutoffTime, timeWindow);
      var sortedTracks := SortDesc(ToScored(trackScores), ScoreKey);

      assert sortedTracks == Ranked(recentFeedback, cutoffTime, timeWindow);
      RankingOf(feedback, timeframe, now);
      ClearTimeframe(timeframe);
      InsertRanking(sortedTracks, timeframe, now);
      processed, frame := |sortedTracks|, timeframe;
    }

    /** The delete loop: every entry of the timeframe goes, the others stay
        in their order. */
    method ClearTimeframe(timeframe: string)
      modifies this
      ensures trending == OtherTimeframes(old(trending), timeframe)
      ensures feedback == old(feedback) && stats == old(stats) && nextId == old(nextId)
    {
      var existing := trending;
      var kept: seq<TrendingEntry> := [];
      for i := 0 to |existing|
        invariant kept == OtherTimeframes(existing[..i], timeframe)
        invariant trending == old(trending) && feedback == old(feedback) && stats == old(stats) && nextId == old(nextId)
      {
        assert existing[..i + 1] == existing[..i] + [existing[i]];
        FilterSnoc(existing[..i], existing[i], OfOtherTimeframe(timeframe));
        if existing[i].timeframe != timeframe {
          kept := kept + [existing[i]];
        }
      }
      assert existing[..|existing|] == existing;
      trending := kept;
    }

    /** The insert loop: the first (at most) 100 scored tracks, ranked from 1. */
    method InsertRanking(sortedTracks: seq<Scored>, timeframe: string, now: int)
      modifies this
      ensures trending == old(trending) + Entries(sortedTracks, timeframe, now)
      ensures feedback == old(feedback) && stats == old(stats) && nextId == old(nextId)
    {
      ghost var entries := Entries(sortedTracks, timeframe, now);
      for i := 0 to Min(|sortedTracks|, MAX_TRENDING)
        invariant trending == old(trending) + entries[..i]
        invariant feedback == old(feedback) && stats == old(stats) && nextId == old(nextId)
      {
        assert entries[..i + 1] == entries[..i] + [entries[i]];
        trending := trending + [TrendingEntry(sortedTracks[i].trackId, sortedTracks[i].score, timeframe, "all", i + 1, now)];
      }
      assert entries[..|entries|] == entries;
    }
  }
}
