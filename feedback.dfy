/** Reactions to tracks and the per-track summary that is recomputed from
    them (convex/feedback.ts): the four reaction kinds and their scores,
    the `feedback` and `feedbackStats` rows, and the tally that
    `updateFeedbackStats` performs. */
module Feedback {
  import opened Common

  type FeedbackId = nat

  datatype FeedbackType = Love | Like | Meh | Dislike

  /** `FEEDBACK_SCORES`: love 4, like 3, meh 2, dislike 1. */
  function Score(t: FeedbackType): (r: nat)
    ensures 1 <= r <= 4
  {
    match t
    case Love => 4
    case Like => 3
    case Meh => 2
    case Dislike => 1
  }

  /** A row of the `feedback` table. `userId` is absent for anonymous and
      signed-out submissions. */
  datatype Feedback = Feedback(
    id: FeedbackId,
    trackId: TrackId,
    userId: Option<UserId>,
    kind: FeedbackType,
    timestamp: int,
    isAnonymous: bool,
    deviceType: string,
    sessionId: string)

  /** A row of the `feedbackStats` table. */
  datatype FeedbackStats = FeedbackStats(
    trackId: TrackId,
    loveCount: nat,
    likeCount: nat,
    mehCount: nat,
    dislikeCount: nat,
    totalFeedback: nat,
    averageRating: real,
    lastUpdated: int)

  function OnTrack(t: TrackId): Feedback -> bool {
    (f: Feedback) => f.trackId == t
  }

  /** The `by_track` index query: the feedback rows of one track. */
  function RowsFor(rows: seq<Feedback>, t: TrackId): seq<Feedback> {
    Filter(rows, OnTrack(t))
  }

  /** How many of `rows` are of kind `k`. */
  function CountOf(rows: seq<Feedback>, k: FeedbackType): nat {
    if rows == [] then 0
    else CountOf(rows[..|rows| - 1], k) + (if rows[|rows| - 1].kind == k then 1 else 0)
  }

  /** The sum of the scores of `rows`. */
  function TotalScore(rows: seq<Feedback>): nat {
    if rows == [] then 0
    else TotalScore(rows[..|rows| - 1]) + Score(rows[|rows| - 1].kind)
  }

  /** The mean score, or 0 when there are no rows. */
  function Average(rows: seq<Feedback>): real {
    if |rows| > 0 then TotalScore(rows) as real / |rows| as real else 0.0
  }

  /** The stats row that a full recomputation over `rows` (the rows of
      `trackId`) produces at time `now`. */
  function Tallied(rows: seq<Feedback>, trackId: TrackId, now: int): FeedbackStats {
    FeedbackStats(trackId, CountOf(rows, Love), CountOf(rows, Like), CountOf(rows, Meh),
                  CountOf(rows, Dislike), |rows|, Average(rows), now)
  }

  /** The four per-kind counts add up to the number of rows. */
  lemma {:induction false} CountsSumToTotal(rows: seq<Feedback>)
    ensures CountOf(rows, Love) + CountOf(rows, Like) + CountOf(rows, Meh) + CountOf(rows, Dislike) == |rows|
  {
    if rows != [] {
      CountsSumToTotal(rows[..|rows| - 1]);
    }
  }

  /** The score sum is the ordinal of each kind times its count. */
  lemma {:induction false} TotalScoreByKind(rows: seq<Feedback>)
    ensures TotalScore(rows) == 4 * CountOf(rows, Love) + 3 * CountOf(rows, Like)
                                + 2 * CountOf(rows, Meh) + CountOf(rows, Dislike)
  {
    if rows != [] {
      TotalScoreByKind(rows[..|rows| - 1]);
    }
  }

  lemma {:induction false} TotalScoreBounds(rows: seq<Feedback>)
    ensures |rows| <= TotalScore(rows) <= 4 * |rows|
  {
    if rows != [] {
      TotalScoreBounds(rows[..|rows| - 1]);
    }
  }

  /** The average is 0 exactly when there are no rows, and otherwise lies
      between the lowest score (1) and the highest (4). */
  lemma AverageRange(rows: seq<Feedback>)
    ensures Average(rows) == 0.0 <==> |rows| == 0
    ensures |rows| > 0 ==> 1.0 <= Average(rows) <= 4.0
  {
    if |rows| > 0 {
      TotalScoreBounds(rows);
      QuotientBounds(TotalScore(rows) as real, |rows| as real);
    }
  }

  lemma QuotientBounds(t: real, n: real)
    requires 0.0 < n && n <= t <= 4.0 * n
    ensures 1.0 <= t / n <= 4.0
  {
    var q := t / n;
    assert q * n == t;
    assert (q - 1.0) * n == t - n;
    assert (4.0 - q) * n == 4.0 * n - t;
  }

  /** `updateFeedbackStats`'s loop: one pass over the track's rows that
      counts each kind and sums the scores, then the average. */
  method ComputeStats(allFeedback: seq<Feedback>, trackId: TrackId, now: int) returns (stats: FeedbackStats)
    ensures stats == Tallied(allFeedback, trackId, now)
  {
    var love, like, meh, dislike := 0, 0, 0, 0;
    var totalScore := 0;
    var i := 0;
    while i < |allFeedback|
      invariant 0 <= i <= |allFeedback|
      invariant love == CountOf(allFeedback[..i], Love)
      invariant like == CountOf(allFeedback[..i], Like)
      invariant meh == CountOf(allFeedback[..i], Meh)
      invariant dislike == CountOf(allFeedback[..i], Dislike)
      invariant totalScore == TotalScore(allFeedback[..i])
    {
      var f := allFeedback[i];
      assert allFeedback[..i + 1][..i] == allFeedback[..i];
      match f.kind {
        case Love => love := love + 1;
        case Like => like := like + 1;
        case Meh => meh := meh + 1;
        case Dislike => dislike := dislike + 1;
      }
      totalScore := totalScore + Score(f.kind);
      i := i + 1;
    }
    assert allFeedback[..i] == allFeedback;
    var average := 0.0;
    if |allFeedback| > 0 {
      average := totalScore as real / |allFeedback| as real;
    }
    stats := FeedbackStats(trackId, love, like, meh, dislike, |allFeedback|, average, now);
  }

  /** A stats row agrees with the feedback table when it is what a
      recomputation over that track's current rows gives. */
  predicate StatsAgree(row: FeedbackStats, rows: seq<Feedback>) {
    row == Tallied(RowsFor(rows, row.trackId), row.trackId, row.lastUpdated)
  }

  /** A stats row that agrees with the table has per-kind counts that sum to
      `totalFeedback`, a total equal to the number of rows for its track, and
      an average that is 0 with no rows and in [1, 4] otherwise. */
  lemma AgreeingStatsConsistent(row: FeedbackStats, rows: seq<Feedback>)
    requires StatsAgree(row, rows)
    ensures row.loveCount + row.likeCount + row.mehCount + row.dislikeCount == row.totalFeedback
    ensures row.totalFeedback == |RowsFor(rows, row.trackId)|
    ensures row.averageRating == 0.0 <==> row.totalFeedback == 0
    ensures row.totalFeedback > 0 ==> 1.0 <= row.averageRating <= 4.0
  {
    CountsSumToTotal(RowsFor(rows, row.trackId));
    AverageRange(RowsFor(rows, row.trackId));
  }

  // Changes to rows of one track leave every other track's rows alone.

  lemma RowsForAppendOther(rows: seq<Feedback>, f: Feedback, t: TrackId)
    requires f.trackId != t
    ensures RowsFor(rows + [f], t) == RowsFor(rows, t)
  {
    FilterAppend(rows, [f], OnTrack(t));
    FilterNone([f], OnTrack(t));
  }

  lemma RowsForUpdateOther(rows: seq<Feedback>, i: nat, f: Feedback, t: TrackId)
    requires i < |rows| && rows[i].trackId != t && f.trackId != t
    ensures RowsFor(rows[i := f], t) == RowsFor(rows, t)
  {
    FilterReplace(rows, i, f, OnTrack(t));
  }

  lemma RowsForRemoveOther(rows: seq<Feedback>, i: nat, t: TrackId)
    requires i < |rows| && rows[i].trackId != t
    ensures RowsFor(rows[..i] + rows[i + 1..], t) == RowsFor(rows, t)
  {
    FilterSplice(rows, i, OnTrack(t));
  }
}
