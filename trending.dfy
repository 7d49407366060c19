/** The trending ranker of convex/feedback.ts (`calculateTrendingScores`):
    recent feedback is grouped per track with a recency weight, each track
    gets the mean weighted score, tracks are sorted by that score and the
    first 100 become the ranked entries of the timeframe. */
module Trending {
  import opened Common
  import opened Sorting
  import opened Feedback

  const HOUR: nat := 60 * 60 * 1000
  const MAX_TRENDING: nat := 100

  /** The scoring window of a timeframe label in milliseconds: 1h, 24h, 7d
      and 30d are known, every other label gets the 24h window. */
  function WindowOf(timeframe: string): (w: nat)
    ensures w > 0
    ensures timeframe == "1h" ==> w == HOUR
    ensures timeframe == "7d" ==> w == 7 * 24 * HOUR
    ensures timeframe == "30d" ==> w == 30 * 24 * HOUR
    ensures timeframe !in ["1h", "7d", "30d"] ==> w == 24 * HOUR
  {
    if timeframe == "1h" then HOUR
    else if timeframe == "24h" then 24 * HOUR
    else if timeframe == "7d" then 7 * 24 * HOUR
    else if timeframe == "30d" then 30 * 24 * HOUR
    else 24 * HOUR
  }

  /** `now - timeWindow`: only feedback newer than this is scored. */
  function CutoffOf(timeframe: string, now: int): (c: int)
    ensures c < now
  {
    now - WindowOf(timeframe)
  }

  /** `(timestamp - cutoffTime) / timeWindow`. */
  function Weight(timestamp: int, cutoff: int, window: nat): real
    requires window > 0
  {
    (timestamp - cutoff) as real / window as real
  }

  /** One reaction's contribution: its score times its recency weight. */
  function Contribution(f: Feedback, cutoff: int, window: nat): real
    requires window > 0
  {
    Score(f.kind) as real * Weight(f.timestamp, cutoff, window)
  }

  /** A weight lies in (0, 1] for a time after the cutoff and no later than
      the end of the window. */
  lemma WeightRange(timestamp: int, cutoff: int, window: nat)
    requires window > 0 && cutoff < timestamp <= cutoff + window
    ensures 0.0 < Weight(timestamp, cutoff, window) <= 1.0
  {
    var d, w := (timestamp - cutoff) as real, window as real;
    var q := d / w;
    assert q * w == d;
    assert (1.0 - q) * w == w - d;
  }

  /** The sum of the contributions of `rows`. */
  function WeightedSum(rows: seq<Feedback>, cutoff: int, window: nat): real
    requires window > 0
  {
    if rows == [] then 0.0
    else WeightedSum(rows[..|rows| - 1], cutoff, window) + Contribution(rows[|rows| - 1], cutoff, window)
  }

  /** The per-track accumulator of `trackScores`: weighted score sum and count. */
  datatype Group = Group(trackId: TrackId, score: real, count: nat)

  /** `trackScores.get(trackId)`: where the track's accumulator sits. */
  function IndexOfTrack(groups: seq<Group>, t: TrackId): (r: Option<nat>)
    ensures r.Some? ==> r.value < |groups| && groups[r.value].trackId == t
    ensures r.None? <==> forall i :: 0 <= i < |groups| ==> groups[i].trackId != t
  {
    if groups == [] then None
    else if groups[0].trackId == t then Some(0)
    else match IndexOfTrack(groups[1..], t)
      case None => None
      case Some(k) => Some(k + 1)
  }

  /** One step of the loop: add the reaction to its track's accumulator, or
      start one at the end (a `Map` keeps first-insertion order). */
  function Accumulate(groups: seq<Group>, f: Feedback, cutoff: int, window: nat): seq<Group>
    requires window > 0
  {
    var c := Contribution(f, cutoff, window);
    match IndexOfTrack(groups, f.trackId)
    case Some(k) => groups[k := Group(f.trackId, groups[k].score + c, groups[k].count + 1)]
    case None => groups + [Group(f.trackId, c, 1)]
  }

  /** The accumulators after the loop has seen every row of `rows`. */
  function Aggregate(rows: seq<Feedback>, cutoff: int, window: nat): seq<Group>
    requires window > 0
  {
    if rows == [] then []
    else Accumulate(Aggregate(rows[..|rows| - 1], cutoff, window), rows[|rows| - 1], cutoff, window)
  }

  predicate DistinctTracks(groups: seq<Group>) {
    forall i, j :: 0 <= i < j < |groups| ==> groups[i].trackId != groups[j].trackId
  }

  /** Every accumulator holds exactly its track's rows. */
  predicate GroupsTally(groups: seq<Group>, rows: seq<Feedback>, cutoff: int, window: nat)
    requires window > 0
  {
    forall i :: 0 <= i < |groups| ==>
      groups[i].count == |RowsFor(rows, groups[i].trackId)| &&
      groups[i].score == WeightedSum(RowsFor(rows, groups[i].trackId), cutoff, window)
  }

  lemma RowsForSnoc(rows: seq<Feedback>, f: Feedback, t: TrackId)
    ensures RowsFor(rows + [f], t) == RowsFor(rows, t) + (if f.trackId == t then [f] else [])
  {
    FilterAppend(rows, [f], OnTrack(t));
    assert [f][1..] == [];
  }

  lemma WeightedSumSnoc(rows: seq<Feedback>, f: Feedback, cutoff: int, window: nat)
    requires window > 0
    ensures WeightedSum(rows + [f], cutoff, window) == WeightedSum(rows, cutoff, window) + Contribution(f, cutoff, window)
  {
    assert (rows + [f])[..|rows|] == rows;
  }

  /** The grouping loop produces one accumulator per track that has rows,
      none twice, each holding that track's count and weighted score sum. */
  lemma AggregateCorrect(rows: seq<Feedback>, cutoff: int, window: nat)
    requires window > 0
    ensures DistinctTracks(Aggregate(rows, cutoff, window))
    ensures GroupsTally(Aggregate(rows, cutoff, window), rows, cutoff, window)
    ensures forall t :: IndexOfTrack(Aggregate(rows, cutoff, window), t).Some? <==> RowsFor(rows, t) != []
  {
    AggregateCovers(rows, cutoff, window);
    AggregateDistinct(rows, cutoff, window);
    AggregateTally(rows, cutoff, window);
  }

  /** After a step, the accumulators keep their tracks, in order, and at
      most one is added at the end, for the reaction's track. */
  lemma AccumulateTracks(groups: seq<Group>, f: Feedback, cutoff: int, window: nat)
    requires window > 0
    ensures var g' := Accumulate(groups, f, cutoff, window);
      && |groups| <= |g'| <= |groups| + 1
      && (forall i :: 0 <= i < |groups| ==> g'[i].trackId == groups[i].trackId)
      && (|g'| == |groups| + 1 ==> g'[|groups|].trackId == f.trackId && IndexOfTrack(groups, f.trackId).None?)
      && (|g'| == |groups| ==> IndexOfTrack(groups, f.trackId).Some?)
  {
  }

  lemma {:induction false} AggregateCovers(rows: seq<Feedback>, cutoff: int, window: nat)
    requires window > 0
    ensures forall t :: IndexOfTrack(Aggregate(rows, cutoff, window), t).Some? <==> RowsFor(rows, t) != []
  {
    if rows != [] {
      var prefix, f := rows[..|rows| - 1], rows[|rows| - 1];
      assert rows == prefix + [f];
      AggregateCovers(prefix, cutoff, window);
      var g := Aggregate(prefix, cutoff, window);
      var g' := Aggregate(rows, cutoff, window);
      AccumulateTracks(g, f, cutoff, window);
      forall t ensures IndexOfTrack(g', t).Some? <==> RowsFor(rows, t) != [] {
        RowsForSnoc(prefix, f, t);
        if t == f.trackId {
          assert f in RowsFor(rows, t);
          if |g'| == |g| {
            var k := IndexOfTrack(g, t).value;
            assert g'[k].trackId == t;
          } else {
            assert g'[|g|].trackId == t;
          }
        } else {
          assert RowsFor(rows, t) == RowsFor(prefix, t);
          if IndexOfTrack(g, t).Some? {
            var k := IndexOfTrack(g, t).value;
            assert g'[k].trackId == t;
          }
          if IndexOfTrack(g', t).Some? {
            var k := IndexOfTrack(g', t).value;
            assert k < |g|;
            assert g[k].trackId == t;
          }
        }
      }
    }
  }

  lemma {:induction false} AggregateDistinct(rows: seq<Feedback>, cutoff: int, window: nat)
    requires window > 0
    ensures DistinctTracks(Aggregate(rows, cutoff, window))
  {
    if rows != [] {
      var prefix, f := rows[..|rows| - 1], rows[|rows| - 1];
      AggregateDistinct(prefix, cutoff, window);
      var g := Aggregate(prefix, cutoff, window);
      AccumulateTracks(g, f, cutoff, window);
    }
  }

  lemma {:induction false} AggregateTally(rows: seq<Feedback>, cutoff: int, window: nat)
    requires window > 0
    ensures GroupsTally(Aggregate(rows, cutoff, window), rows, cutoff, window)
  {
    if rows != [] {
      var prefix, f := rows[..|rows| - 1], rows[|rows| - 1];
      assert rows == prefix + [f];
      AggregateTally(prefix, cutoff, window);
      AggregateDistinct(prefix, cutoff, window);
      AggregateCovers(prefix, cutoff, window);
      AccumulateTally(Aggregate(prefix, cutoff, window), prefix, f, cutoff, window);
    }
  }

  /** One step of the loop keeps every accumulator equal to its track's tally. */
  lemma AccumulateTally(g: seq<Group>, prefix: seq<Feedback>, f: Feedback, cutoff: int, window: nat)
    requires window > 0
    requires GroupsTally(g, prefix, cutoff, window) && DistinctTracks(g)
    requires IndexOfTrack(g, f.trackId).None? ==> RowsFor(prefix, f.trackId) == []
    ensures GroupsTally(Accumulate(g, f, cutoff, window), prefix + [f], cutoff, window)
  {
    var g' := Accumulate(g, f, cutoff, window);
    AccumulateTracks(g, f, cutoff, window);
    forall i | 0 <= i < |g'|
      ensures g'[i].count == |RowsFor(prefix + [f], g'[i].trackId)|
      ensures g'[i].score == WeightedSum(RowsFor(prefix + [f], g'[i].trackId), cutoff, window)
    {
      AccumulateTallyAt(g, prefix, f, cutoff, window, i);
    }
  }

  lemma AccumulateTallyAt(g: seq<Group>, prefix: seq<Feedback>, f: Feedback, cutoff: int, window: nat, i: nat)
    requires window > 0
    requires GroupsTally(g, prefix, cutoff, window) && DistinctTracks(g)
    requires IndexOfTrack(g, f.trackId).None? ==> RowsFor(prefix, f.trackId) == []
    requires i < |Accumulate(g, f, cutoff, window)|
    ensures var e := Accumulate(g, f, cutoff, window)[i];
      && e.count == |RowsFor(prefix + [f], e.trackId)|
      && e.score == WeightedSum(RowsFor(prefix + [f], e.trackId), cutoff, window)
  {
    var g' := Accumulate(g, f, cutoff, window);
    AccumulateTracks(g, f, cutoff, window);
    var t := g'[i].trackId;
    RowsForSnoc(prefix, f, t);
    if t == f.trackId {
      WeightedSumSnoc(RowsFor(prefix, t), f, cutoff, window);
      if i == |g| {
        assert RowsFor(prefix, t) == [];
        assert RowsFor(prefix + [f], t) == [f];
        assert WeightedSum([f], cutoff, window) == Contribution(f, cutoff, window);
      } else {
        assert IndexOfTrack(g, t) == Some(i) by {
          var k := IndexOfTrack(g, t).value;
          assert g[k].trackId == g[i].trackId;
        }
      }
    } else {
      assert i < |g| && g'[i] == g[i];
      assert RowsFor(prefix + [f], t) == RowsFor(prefix, t);
      assert g[i].score == WeightedSum(RowsFor(prefix, g[i].trackId), cutoff, window);
    }
  }

  /** A track's trending score: the weighted sum divided by the count (not
      by the total weight). */
  datatype Scored = Scored(trackId: TrackId, score: real, totalFeedback: nat)

  function ScoreOf(g: Group): Scored {
    Scored(g.trackId, g.score / Max(g.count, 1) as real, g.count)
  }

  function ToScored(groups: seq<Group>): (r: seq<Scored>)
    ensures |r| == |groups|
    ensures forall i :: 0 <= i < |groups| ==> r[i] == ScoreOf(groups[i])
  {
    if groups == [] then [] else [ScoreOf(groups[0])] + ToScored(groups[1..])
  }

  function ScoreKey(s: Scored): real {
    s.score
  }

  function After(cutoff: int): Feedback -> bool {
    (f: Feedback) => f.timestamp > cutoff
  }

  function EarlierFirst(f: Feedback): real {
    -(f.timestamp as real)
  }

  /** The rows of `feedback` newer than the cutoff, in the order of the
      `by_timestamp` index: oldest first, equal times in creation order. */
  function Recent(feedback: seq<Feedback>, cutoff: int): seq<Feedback> {
    SortDesc(Filter(feedback, After(cutoff)), EarlierFirst)
  }

  lemma RecentElements(feedback: seq<Feedback>, cutoff: int, f: Feedback)
    ensures f in Recent(feedback, cutoff) <==> f in feedback && f.timestamp > cutoff
  {
    SortedElements(Filter(feedback, After(cutoff)), EarlierFirst, f);
  }

  /** `sortedTracks`: the scored tracks in non-increasing score order. */
  function Ranked(recent: seq<Feedback>, cutoff: int, window: nat): seq<Scored>
    requires window > 0
  {
    SortDesc(ToScored(Aggregate(recent, cutoff, window)), ScoreKey)
  }

  /** A row of the `trendingTracks` table. */
  datatype TrendingEntry = TrendingEntry(
    trackId: TrackId,
    score: real,
    timeframe: string,
    category: string,
    rank: nat,
    lastCalculated: int)

  /** The rows the insert loop adds: the first (at most) 100 scored tracks,
      ranked from 1, under the given label and the category "all". */
  function Entries(sorted: seq<Scored>, timeframe: string, now: int): (r: seq<TrendingEntry>)
    ensures |r| == Min(|sorted|, MAX_TRENDING)
  {
    seq(Min(|sorted|, MAX_TRENDING),
        i requires 0 <= i < Min(|sorted|, MAX_TRENDING) =>
          TrendingEntry(sorted[i].trackId, sorted[i].score, timeframe, "all", i + 1, now))
  }

  /** The entries of a timeframe after a ranking run at `now` over the
      given feedback table. */
  function TrendingFor(feedback: seq<Feedback>, timeframe: string, now: int): seq<TrendingEntry> {
    var window := WindowOf(timeframe);
    var cutoff := CutoffOf(timeframe, now);
    Entries(Ranked(Recent(feedback, cutoff), cutoff, window), timeframe, now)
  }

  /** The number of tracks a ranking run reports as processed. */
  function ProcessedFor(feedback: seq<Feedback>, timeframe: string, now: int): nat {
    var window := WindowOf(timeframe);
    var cutoff := CutoffOf(timeframe, now);
    |Aggregate(Recent(feedback, cutoff), cutoff, window)|
  }

  /** A ranking run's entries and count in terms of its sorted scores. */
  lemma RankingOf(feedback: seq<Feedback>, timeframe: string, now: int)
    ensures TrendingFor(feedback, timeframe, now) ==
            Entries(Ranked(Recent(feedback, CutoffOf(timeframe, now)), CutoffOf(timeframe, now), WindowOf(timeframe)), timeframe, now)
    ensures ProcessedFor(feedback, timeframe, now) ==
            |Ranked(Recent(feedback, CutoffOf(timeframe, now)), CutoffOf(timeframe, now), WindowOf(timeframe))|
  {
  }

  /** `trending.filter(e => e.timeframe !== timeframe)`: what the delete loop
      leaves. */
  function OtherTimeframes(trending: seq<TrendingEntry>, timeframe: string): seq<TrendingEntry> {
    Filter(trending, OfOtherTimeframe(timeframe))
  }

  function OfOtherTimeframe(timeframe: string): TrendingEntry -> bool {
    (e: TrendingEntry) => e.timeframe != timeframe
  }

  function TrackOfScored(s: Scored): TrackId {
    s.trackId
  }

  predicate DistinctScored(s: seq<Scored>) {
    DistinctBy(s, TrackOfScored)
  }

  /** The scored track at position `i` of the ranking comes from one of the
      accumulators. */
  lemma SourceGroup(recent: seq<Feedback>, cutoff: int, window: nat, i: nat) returns (k: nat)
    requires window > 0 && i < |Ranked(recent, cutoff, window)|
    ensures k < |Aggregate(recent, cutoff, window)|
    ensures Ranked(recent, cutoff, window)[i] == ScoreOf(Aggregate(recent, cutoff, window)[k])
  {
    var scored := ToScored(Aggregate(recent, cutoff, window));
    var x := Ranked(recent, cutoff, window)[i];
    SortedElements(scored, ScoreKey, x);
    k :| 0 <= k < |scored| && scored[k] == x;
  }

  /** Every accumulator has its scored track somewhere in the ranking. */
  lemma RankedPosition(recent: seq<Feedback>, cutoff: int, window: nat, k: nat) returns (i: nat)
    requires window > 0 && k < |Aggregate(recent, cutoff, window)|
    ensures i < |Ranked(recent, cutoff, window)|
    ensures Ranked(recent, cutoff, window)[i] == ScoreOf(Aggregate(recent, cutoff, window)[k])
  {
    var scored := ToScored(Aggregate(recent, cutoff, window));
    var x := scored[k];
    SortedElements(scored, ScoreKey, x);
    i :| 0 <= i < |Ranked(recent, cutoff, window)| && Ranked(recent, cutoff, window)[i] == x;
  }

  lemma ContributionRange(f: Feedback, cutoff: int, window: nat)
    requires window > 0 && cutoff < f.timestamp <= cutoff + window
    ensures 0.0 < Contribution(f, cutoff, window) <= 4.0
  {
    WeightRange(f.timestamp, cutoff, window);
    var sc, w := Score(f.kind) as real, Weight(f.timestamp, cutoff, window);
    assert (4.0 - sc) * w >= 0.0;
    assert sc * (1.0 - w) >= 0.0;
  }

  predicate InWindow(rows: seq<Feedback>, cutoff: int, window: nat) {
    forall i :: 0 <= i < |rows| ==> cutoff < rows[i].timestamp <= cutoff + window
  }

  /** Rows inside the window sum to a positive weighted score of at most 4
      per row. */
  lemma {:induction false} WeightedSumBounds(rows: seq<Feedback>, cutoff: int, window: nat)
    requires window > 0 && InWindow(rows, cutoff, window)
    ensures 0.0 <= WeightedSum(rows, cutoff, window) <= 4.0 * |rows| as real
    ensures rows != [] ==> 0.0 < WeightedSum(rows, cutoff, window)
  {
    if rows != [] {
      WeightedSumBounds(rows[..|rows| - 1], cutoff, window);
      ContributionRange(rows[|rows| - 1], cutoff, window);
    }
  }

  lemma PositiveQuotient(t: real, n: real)
    requires 0.0 < t <= 4.0 * n
    ensures 0.0 < t / n <= 4.0
  {
    var q := t / n;
    assert q * n == t;
    assert (4.0 - q) * n == 4.0 * n - t;
  }

  /** The rows of one track among the recent rows of `feedback`. */
  lemma RecentRowsFor(feedback: seq<Feedback>, cutoff: int, t: TrackId, f: Feedback)
    ensures f in RowsFor(Recent(feedback, cutoff), t) <==> f in feedback && f.timestamp > cutoff && f.trackId == t
  {
    RecentElements(feedback, cutoff, f);
  }

  /** The insert loop numbers the ranking from 1 under one label; it keeps
      the ranking's order and its distinct tracks. */
  lemma EntriesRanked(sorted: seq<Scored>, timeframe: string, now: int)
    ensures var r := Entries(sorted, timeframe, now);
      && (forall i :: 0 <= i < |r| ==>
            r[i].rank == i + 1 && r[i].timeframe == timeframe && r[i].category == "all" && r[i].lastCalculated == now &&
            r[i].trackId == sorted[i].trackId && r[i].score == sorted[i].score)
      && (NonIncreasing(sorted, ScoreKey) ==> forall i, j :: 0 <= i < j < |r| ==> r[i].score >= r[j].score)
      && (DistinctScored(sorted) ==> forall i, j :: 0 <= i < j < |r| ==> r[i].trackId != r[j].trackId)
  {
    var r := Entries(sorted, timeframe, now);
    if NonIncreasing(sorted, ScoreKey) {
      forall i, j | 0 <= i < j < |r| ensures r[i].score >= r[j].score {
        assert ScoreKey(sorted[i]) >= ScoreKey(sorted[j]);
      }
    }
    if DistinctScored(sorted) {
      forall i, j | 0 <= i < j < |r| ensures r[i].trackId != r[j].trackId {
        assert TrackOfScored(sorted[i]) != TrackOfScored(sorted[j]);
      }
    }
  }

  /** The ranking holds each track at most once. */
  lemma RankedDistinct(recent: seq<Feedback>, cutoff: int, window: nat)
    requires window > 0
    ensures DistinctScored(Ranked(recent, cutoff, window))
  {
    var groups := Aggregate(recent, cutoff, window);
    AggregateDistinct(recent, cutoff, window);
    assert DistinctScored(ToScored(groups)) by {
      forall i, j | 0 <= i < j < |groups| ensures TrackOfScored(ToScored(groups)[i]) != TrackOfScored(ToScored(groups)[j]) {
        assert groups[i].trackId != groups[j].trackId;
      }
    }
    PermutationKeepsDistinct(Ranked(recent, cutoff, window), ToScored(groups), TrackOfScored);
  }

  /** The entries of a ranking run: at most 100, ranked 1, 2, ... in
      non-increasing score order, labelled with the timeframe, the category
      "all" and the time of the run, each track at most once. */
  lemma TrendingRanks(feedback: seq<Feedback>, timeframe: string, now: int)
    ensures var r := TrendingFor(feedback, timeframe, now);
      && |r| == Min(ProcessedFor(feedback, timeframe, now), MAX_TRENDING)
      && (forall i :: 0 <= i < |r| ==>
            r[i].rank == i + 1 && r[i].timeframe == timeframe && r[i].category == "all" && r[i].lastCalculated == now)
      && (forall i, j :: 0 <= i < j < |r| ==> r[i].score >= r[j].score)
      && (forall i, j :: 0 <= i < j < |r| ==> r[i].trackId != r[j].trackId)
  {
    var window := WindowOf(timeframe);
    var cutoff := CutoffOf(timeframe, now);
    var recent := Recent(feedback, cutoff);
    var sorted := Ranked(recent, cutoff, window);
    RankingOf(feedback, timeframe, now);
    RankedShape(recent, cutoff, window);
    RankedDistinct(recent, cutoff, window);
    EntriesRanked(sorted, timeframe, now);
  }

  lemma RankedShape(recent: seq<Feedback>, cutoff: int, window: nat)
    requires window > 0
    ensures |Ranked(recent, cutoff, window)| == |Aggregate(recent, cutoff, window)|
    ensures NonIncreasing(Ranked(recent, cutoff, window), ScoreKey)
  {
  }

  /** A track is ranked only if it has feedback newer than the cutoff; when
      at most 100 tracks have such feedback, every one of them is ranked. */
  lemma TrendingCoverage(feedback: seq<Feedback>, timeframe: string, now: int, t: TrackId)
    ensures var r := TrendingFor(feedback, timeframe, now);
      && ((exists i :: 0 <= i < |r| && r[i].trackId == t) ==>
            exists f :: f in feedback && f.trackId == t && f.timestamp > now - WindowOf(timeframe))
      && (ProcessedFor(feedback, timeframe, now) <= MAX_TRENDING &&
          (exists f :: f in feedback && f.trackId == t && f.timestamp > now - WindowOf(timeframe)) ==>
            exists i :: 0 <= i < |r| && r[i].trackId == t)
  {
    var window := WindowOf(timeframe);
    var cutoff := CutoffOf(timeframe, now);
    var r := TrendingFor(feedback, timeframe, now);
    if i :| 0 <= i < |r| && r[i].trackId == t {
      RankedHasFeedback(feedback, cutoff, window, timeframe, now, i);
    }
    if ProcessedFor(feedback, timeframe, now) <= MAX_TRENDING {
      if f :| f in feedback && f.trackId == t && f.timestamp > cutoff {
        FeedbackIsRanked(feedback, cutoff, window, timeframe, now, f);
      }
    }
  }

  /** The track at position `i` of a run's entries has feedback newer than
      the cutoff. */
  lemma RankedHasFeedback(feedback: seq<Feedback>, cutoff: int, window: nat, timeframe: string, now: int, i: nat)
    requires window == WindowOf(timeframe) && cutoff == CutoffOf(timeframe, now)
    requires i < |TrendingFor(feedback, timeframe, now)|
    ensures exists f :: f in feedback && f.trackId == TrendingFor(feedback, timeframe, now)[i].trackId && f.timestamp > cutoff
  {
    var recent := Recent(feedback, cutoff);
    var groups := Aggregate(recent, cutoff, window);
    var sorted := Ranked(recent, cutoff, window);
    RankingOf(feedback, timeframe, now);
    var t := sorted[i].trackId;
    assert TrendingFor(feedback, timeframe, now)[i].trackId == t;
    AggregateCorrect(recent, cutoff, window);
    var k := SourceGroup(recent, cutoff, window, i);
    assert groups[k].trackId == t;
    assert IndexOfTrack(groups, t).Some?;
    var f := RowsFor(recent, t)[0];
    RecentRowsFor(feedback, cutoff, t, f);
  }

  /** With at most 100 ranked tracks, a track with feedback newer than the
      cutoff is among a run's entries. */
  lemma FeedbackIsRanked(feedback: seq<Feedback>, cutoff: int, window: nat, timeframe: string, now: int, f: Feedback)
    requires window == WindowOf(timeframe) && cutoff == CutoffOf(timeframe, now)
    requires ProcessedFor(feedback, timeframe, now) <= MAX_TRENDING
    requires f in feedback && f.timestamp > cutoff
    ensures exists i :: 0 <= i < |TrendingFor(feedback, timeframe, now)| && TrendingFor(feedback, timeframe, now)[i].trackId == f.trackId
  {
    var recent := Recent(feedback, cutoff);
    var groups := Aggregate(recent, cutoff, window);
    var sorted := Ranked(recent, cutoff, window);
    var r := TrendingFor(feedback, timeframe, now);
    RankingOf(feedback, timeframe, now);
    AggregateCorrect(recent, cutoff, window);
    RecentRowsFor(feedback, cutoff, f.trackId, f);
    var k := IndexOfTrack(groups, f.trackId).value;
    var i := RankedPosition(recent, cutoff, window, k);
    assert |r| == |sorted|;
    assert r[i].trackId == f.trackId;
  }

  /** The tracks that have feedback newer than the cutoff. */
  function TracksSince(feedback: seq<Feedback>, cutoff: int): set<TrackId> {
    set f | f in feedback && f.timestamp > cutoff :: f.trackId
  }

  function GroupTracks(groups: seq<Group>): set<TrackId> {
    set g | g in groups :: g.trackId
  }

  /** Accumulators of distinct tracks are as many as their tracks. */
  lemma {:induction false} DistinctGroupsCount(groups: seq<Group>)
    requires DistinctTracks(groups)
    ensures |GroupTracks(groups)| == |groups|
  {
    if groups != [] {
      var rest := groups[..|groups| - 1];
      var last := groups[|groups| - 1];
      assert groups == rest + [last];
      assert DistinctTracks(rest);
      DistinctGroupsCount(rest);
      assert GroupTracks(groups) == GroupTracks(rest) + {last.trackId};
      assert last.trackId !in GroupTracks(rest) by {
        forall g | g in rest ensures g.trackId != last.trackId {
          var i :| 0 <= i < |rest| && rest[i] == g;
          assert groups[i] == g;
        }
      }
    }
  }

  /** A track has a group exactly when it has feedback newer than the
      cutoff. */
  lemma GroupTrackIsRecent(feedback: seq<Feedback>, cutoff: int, window: nat, t: TrackId)
    requires window > 0
    ensures t in GroupTracks(Aggregate(Recent(feedback, cutoff), cutoff, window)) <==> t in TracksSince(feedback, cutoff)
  {
    var recent := Recent(feedback, cutoff);
    var groups := Aggregate(recent, cutoff, window);
    AggregateCorrect(recent, cutoff, window);
    if t in GroupTracks(groups) {
      var g :| g in groups && g.trackId == t;
      var k :| 0 <= k < |groups| && groups[k] == g;
      assert IndexOfTrack(groups, t).Some?;
      var f := RowsFor(recent, t)[0];
      RecentRowsFor(feedback, cutoff, t, f);
    }
    if t in TracksSince(feedback, cutoff) {
      var f :| f in feedback && f.timestamp > cutoff && f.trackId == t;
      RecentRowsFor(feedback, cutoff, t, f);
      var k := IndexOfTrack(groups, t).value;
      assert groups[k] in groups;
    }
  }

  /** The `processed` count a ranking run returns is the number of distinct
      tracks with feedback newer than the cutoff. */
  /** The tracks with an accumulator are the tracks reacted to in the window. */
  lemma GroupTracksAreRecent(feedback: seq<Feedback>, cutoff: int, window: nat)
    requires window > 0
    ensures GroupTracks(Aggregate(Recent(feedback, cutoff), cutoff, window)) == TracksSince(feedback, cutoff)
  {
    forall t ensures t in GroupTracks(Aggregate(Recent(feedback, cutoff), cutoff, window)) <==> t in TracksSince(feedback, cutoff) {
      GroupTrackIsRecent(feedback, cutoff, window, t);
    }
  }

  /** As many accumulators as tracks reacted to in the window. */
  lemma GroupCount(feedback: seq<Feedback>, cutoff: int, window: nat)
    requires window > 0
    ensures |Aggregate(Recent(feedback, cutoff), cutoff, window)| == |TracksSince(feedback, cutoff)|
  {
    AggregateDistinct(Recent(feedback, cutoff), cutoff, window);
    DistinctGroupsCount(Aggregate(Recent(feedback, cutoff), cutoff, window));
    GroupTracksAreRecent(feedback, cutoff, window);
  }

  lemma ProcessedCount(feedback: seq<Feedback>, timeframe: string, now: int)
    ensures ProcessedFor(feedback, timeframe, now) == |TracksSince(feedback, CutoffOf(timeframe, now))|
  {
    GroupCount(feedback, CutoffOf(timeframe, now), WindowOf(timeframe));
  }

  /** When no feedback is timestamped after the run, every trending score
      lies in (0, 4]: a mean of scores in [1, 4] scaled by weights in (0, 1]. */
  lemma TrendingScoreRange(feedback: seq<Feedback>, timeframe: string, now: int)
    requires forall f :: f in feedback ==> f.timestamp <= now
    ensures var r := TrendingFor(feedback, timeframe, now);
      forall i :: 0 <= i < |r| ==> 0.0 < r[i].score <= 4.0
  {
    var window := WindowOf(timeframe);
    var cutoff := CutoffOf(timeframe, now);
    var recent := Recent(feedback, cutoff);
    var groups := Aggregate(recent, cutoff, window);
    var r := TrendingFor(feedback, timeframe, now);
    AggregateCorrect(recent, cutoff, window);
    forall i | 0 <= i < |r| ensures 0.0 < r[i].score <= 4.0 {
      var k := SourceGroup(recent, cutoff, window, i);
      var t := groups[k].trackId;
      var rows := RowsFor(recent, t);
      assert IndexOfTrack(groups, t).Some?;
      assert InWindow(rows, cutoff, window) by {
        forall j | 0 <= j < |rows| ensures cutoff < rows[j].timestamp <= cutoff + window {
          RecentRowsFor(feedback, cutoff, t, rows[j]);
        }
      }
      WeightedSumBounds(rows, cutoff, window);
      PositiveQuotient(groups[k].score, groups[k].count as real);
    }
  }

  /** The grouping loop of `calculateTrendingScores`. */
  method AggregateScores(recent: seq<Feedback>, cutoff: int, window: nat) returns (groups: seq<Group>)
    requires window > 0
    ensures groups == Aggregate(recent, cutoff, window)
  {
    groups := [];
    for i := 0 to |recent|
      invariant groups == Aggregate(recent[..i], cutoff, window)
    {
      var f := recent[i];
      var timeWeight := Weight(f.timestamp, cutoff, window);
      var feedbackScore := Score(f.kind);
      assert feedbackScore as real * timeWeight == Contribution(f, cutoff, window);
      assert recent[..i + 1][..i] == recent[..i] && recent[..i + 1][i] == f;
      ghost var next := Accumulate(groups, f, cutoff, window);
      match IndexOfTrack(groups, f.trackId) {
        case Some(k) =>
          groups := groups[k := Group(f.trackId, groups[k].score + feedbackScore as real * timeWeight,
                                      groups[k].count + 1)];
          assert groups == next;
        case None =>
          groups := groups + [Group(f.trackId, feedbackScore as real * timeWeight, 1)];
          assert groups == next;
      }
    }
    assert recent[..|recent|] == recent;
  }
}
