/** The read side of convex/feedback.ts: the trending list of a timeframe
    and the feedback stream in its three orders. Storage URLs and uploader
    names that the queries attach are not part of this model. */
module FeedbackQueries {
  import opened Common
  import opened Sorting
  import opened Feedback
  import opened Trending
  import opened FeedbackStore
  import opened Tracks

  // ---------------------------------------------------------------------
  // getTrendingTracks

  /** A track of the trending list. `feedbackStats` is absent when the track
      has no stats row; the query then reports all-zero counts. */
  datatype TrendingTrack = TrendingTrack(track: Track, trendingScore: real, trendingRank: nat,
                                         feedbackStats: Option<FeedbackStats>)

  function InTimeframe(tf: string): TrendingEntry -> bool {
    (e: TrendingEntry) => e.timeframe == tf
  }

  function InCategory(c: string): TrendingEntry -> bool {
    (e: TrendingEntry) => e.category == c
  }

  /** `by_timeframe_rank` read in ascending order: lower ranks first. */
  function RankKey(e: TrendingEntry): real {
    -(e.rank as real)
  }

  /** The entries of the timeframe, narrowed to the category unless it is
      falsy or "all". */
  function TrendingRows(trending: seq<TrendingEntry>, tf: string, category: Option<string>): seq<TrendingEntry> {
    var rows := Filter(trending, InTimeframe(tf));
    if Truthy(category) && category.value != "all" then Filter(rows, InCategory(category.value)) else rows
  }

  function EntryPresent(tracks: seq<Track>): TrendingEntry -> bool {
    (e: TrendingEntry) => FindTrack(tracks, e.trackId).Some?
  }

  /** The join with the tracks table: entries whose track is gone are
      dropped (`filter(Boolean)`), the others carry their track, score,
      rank and stats row. */
  function JoinTrending(entries: seq<TrendingEntry>, tracks: seq<Track>, stats: seq<FeedbackStats>): (r: seq<TrendingTrack>)
    ensures var kept := Filter(entries, EntryPresent(tracks));
      && |r| == |kept|
      && forall i :: 0 <= i < |r| ==>
           Some(r[i].track) == FindTrack(tracks, kept[i].trackId) && r[i].trendingScore == kept[i].score &&
           r[i].trendingRank == kept[i].rank && r[i].feedbackStats == StatsFor(stats, kept[i].trackId)
  {
    var kept := Filter(entries, EntryPresent(tracks));
    seq(|kept|, i requires 0 <= i < |kept| =>
      TrendingTrack(FindTrack(tracks, kept[i].trackId).value, kept[i].score, kept[i].rank, StatsFor(stats, kept[i].trackId)))
  }

  /** `getTrendingTracks`: timeframe defaults to "24h", the limit to 20. */
  function GetTrendingTracks(trending: seq<TrendingEntry>, tracks: seq<Track>, stats: seq<FeedbackStats>,
                             timeframe: Option<string>, category: Option<string>, limit: Option<nat>): seq<TrendingTrack>
  {
    var tf := OrElse(timeframe, "24h");
    var lim := CountOrElse(limit, 20);
    JoinTrending(Take(SortDesc(TrendingRows(trending, tf, category), RankKey), lim), tracks, stats)
  }

  /** The item carries the track, rank, score and stats row of an entry of
      the timeframe (and of the category, unless it is falsy or "all"). */
  predicate FromEntry(t: TrendingTrack, trending: seq<TrendingEntry>, stats: seq<FeedbackStats>,
                      tf: string, category: Option<string>) {
    exists e :: e in trending && e.timeframe == tf && e.trackId == t.track.id && e.rank == t.trendingRank &&
      e.score == t.trendingScore && t.feedbackStats == StatsFor(stats, e.trackId) &&
      (Truthy(category) && category.value != "all" ==> e.category == category.value)
  }

  /** The entries `getTrendingTracks` selects: at most `limit` entries of
      the timeframe (and category), in ascending rank order, all of them
      when every entry's track exists. */
  lemma SelectionRows(trending: seq<TrendingEntry>, tf: string, category: Option<string>, lim: nat, tracks: seq<Track>)
    ensures var rows := TrendingRows(trending, tf, category);
      var page := Take(SortDesc(rows, RankKey), lim);
      && |page| <= lim
      && NonIncreasing(page, RankKey)
      && (forall e :: e in page ==>
            e in trending && e.timeframe == tf && (Truthy(category) && category.value != "all" ==> e.category == category.value))
      && ((forall e :: e in trending ==> FindTrack(tracks, e.trackId).Some?) ==>
            Filter(page, EntryPresent(tracks)) == page && |page| == Min(lim, |rows|))
  {
    var rows := TrendingRows(trending, tf, category);
    var sorted := SortDesc(rows, RankKey);
    var page := Take(sorted, lim);
    SliceNonIncreasing(sorted, 0, lim, RankKey);
    forall e | e in page
      ensures e in trending && e.timeframe == tf && (Truthy(category) && category.value != "all" ==> e.category == category.value)
  {
      SortedElements(rows, RankKey, e);
    }
    if forall e :: e in trending ==> FindTrack(tracks, e.trackId).Some? {
      FilterAll(page, EntryPresent(tracks)) by {
        forall i | 0 <= i < |page| ensures EntryPresent(tracks)(page[i]) {
          assert page[i] in page;
        }
      }
    }
  }

  /** The items of `getTrendingTracks`: at most `limit` (default 20)
      tracks, in ascending rank order, each an existing track joined with
      an entry of the timeframe (and of the category, when one other than
      "all" is given). None is dropped when every entry's track exists. */
  lemma GetTrendingTracksItems(trending: seq<TrendingEntry>, tracks: seq<Track>, stats: seq<FeedbackStats>,
                              timeframe: Option<string>, category: Option<string>, limit: Option<nat>)
    ensures var r := GetTrendingTracks(trending, tracks, stats, timeframe, category, limit);
      var tf := OrElse(timeframe, "24h");
      var lim := CountOrElse(limit, 20);
      && |r| <= lim
      && (forall i, j :: 0 <= i < j < |r| ==> r[i].trendingRank <= r[j].trendingRank)
      && (forall i :: 0 <= i < |r| ==>
            r[i].track in tracks && FromEntry(r[i], trending, stats, tf, category))
      && ((forall e :: e in trending ==> FindTrack(tracks, e.trackId).Some?) ==>
            |r| == Min(lim, |TrendingRows(trending, tf, category)|))
  {
    var tf := OrElse(timeframe, "24h");
    var lim := CountOrElse(limit, 20);
    var page := Take(SortDesc(TrendingRows(trending, tf, category), RankKey), lim);
    var kept := Filter(page, EntryPresent(tracks));
    var r := JoinTrending(page, tracks, stats);
    SelectionRows(trending, tf, category, lim, tracks);
    FilterNonIncreasing(page, EntryPresent(tracks), RankKey);
    forall i, j | 0 <= i < j < |r| ensures r[i].trendingRank <= r[j].trendingRank {
      assert RankKey(kept[i]) >= RankKey(kept[j]);
    }
    forall i | 0 <= i < |r| ensures r[i].track in tracks && FromEntry(r[i], trending, stats, tf, category) {
      assert kept[i] in kept;
      assert kept[i] in page;
    }
  }

  /** `r` is read from `ranked`: its first `lim` entries, minus those whose
      track is gone, each with its track, score, rank and stats row. */
  predicate RankedPageOf(r: seq<TrendingTrack>, ranked: seq<TrendingEntry>, tracks: seq<Track>,
                         stats: seq<FeedbackStats>, lim: nat) {
    var page := Filter(Take(ranked, lim), EntryPresent(tracks));
    && |r| == |page|
    && forall i :: 0 <= i < |r| ==>
         r[i].trendingRank == page[i].rank && r[i].trendingScore == page[i].score &&
         Some(r[i].track) == FindTrack(tracks, page[i].trackId) &&
         r[i].feedbackStats == StatsFor(stats, page[i].trackId)
  }

  /** Which entries are returned: with the matching entries put in
      ascending rank order, the first `limit` of them, minus those whose
      track is gone. */
  lemma GetTrendingTracksPage(trending: seq<TrendingEntry>, tracks: seq<Track>, stats: seq<FeedbackStats>,
                              timeframe: Option<string>, category: Option<string>, limit: Option<nat>)
    ensures var r := GetTrendingTracks(trending, tracks, stats, timeframe, category, limit);
      var tf := OrElse(timeframe, "24h");
      var lim := CountOrElse(limit, 20);
      exists ranked: seq<TrendingEntry> ::
        && multiset(ranked) == multiset(TrendingRows(trending, tf, category))
        && (forall i, j :: 0 <= i < j < |ranked| ==> ranked[i].rank <= ranked[j].rank)
        && RankedPageOf(r, ranked, tracks, stats, lim)
  {
    var tf := OrElse(timeframe, "24h");
    var rows := TrendingRows(trending, tf, category);
    var ranked := SortDesc(rows, RankKey);
    forall i, j | 0 <= i < j < |ranked| ensures ranked[i].rank <= ranked[j].rank {
      assert RankKey(ranked[i]) >= RankKey(ranked[j]);
    }
    var lim := CountOrElse(limit, 20);
    var page := Filter(Take(ranked, lim), EntryPresent(tracks));
    var r := JoinTrending(Take(ranked, lim), tracks, stats);
    assert r == GetTrendingTracks(trending, tracks, stats, timeframe, category, limit);
    assert RankedPageOf(r, ranked, tracks, stats, lim);
  }

  /** `getTrendingTracks`: at most `limit` (default 20) tracks in ascending
      rank order, each an existing track joined with an entry of the
      timeframe (and of the category, when one other than "all" is given);
      they are the lowest-ranked matching entries minus those whose track
      is gone, and none is dropped when every entry's track exists. */
  lemma GetTrendingTracksSpec(trending: seq<TrendingEntry>, tracks: seq<Track>, stats: seq<FeedbackStats>,
                              timeframe: Option<string>, category: Option<string>, limit: Option<nat>)
    ensures var r := GetTrendingTracks(trending, tracks, stats, timeframe, category, limit);
      var tf := OrElse(timeframe, "24h");
      var lim := CountOrElse(limit, 20);
      && |r| <= lim
      && (forall i, j :: 0 <= i < j < |r| ==> r[i].trendingRank <= r[j].trendingRank)
      && (forall i :: 0 <= i < |r| ==>
            r[i].track in tracks && FromEntry(r[i], trending, stats, tf, category))
      && ((forall e :: e in trending ==> FindTrack(tracks, e.trackId).Some?) ==>
            |r| == Min(lim, |TrendingRows(trending, tf, category)|))
    ensures var r := GetTrendingTracks(trending, tracks, stats, timeframe, category, limit);
      var tf := OrElse(timeframe, "24h");
      var lim := CountOrElse(limit, 20);
      exists ranked: seq<TrendingEntry> ::
        && multiset(ranked) == multiset(TrendingRows(trending, tf, category))
        && (forall i, j :: 0 <= i < j < |ranked| ==> ranked[i].rank <= ranked[j].rank)
        && RankedPageOf(r, ranked, tracks, stats, lim)
  {
    GetTrendingTracksItems(trending, tracks, stats, timeframe, category, limit);
    GetTrendingTracksPage(trending, tracks, stats, timeframe, category, limit);
  }

  // ---------------------------------------------------------------------
  // getFeedbackStream

  /** A track of the stream with its stats row (absent when the track has
      none, which only the "recent" order can produce). */
  datatype StreamItem = StreamItem(track: Track, feedbackStats: Option<FeedbackStats>)

  function TotalAbove(n: nat): FeedbackStats -> bool {
    (s: FeedbackStats) => s.totalFeedback > n
  }

  function TotalKey(s: FeedbackStats): real {
    s.totalFeedback as real
  }

  function FewestFirst(s: FeedbackStats): real {
    -(s.totalFeedback as real)
  }

  /** `Math.abs(averageRating - 2.5) < 0.5`. */
  predicate Mixed(s: FeedbackStats) {
    2.0 < s.averageRating < 3.0
  }

  function MixedRating(): FeedbackStats -> bool {
    (s: FeedbackStats) => Mixed(s)
  }

  function StatsPresent(tracks: seq<Track>): FeedbackStats -> bool {
    (s: FeedbackStats) => FindTrack(tracks, s.trackId).Some?
  }

  /** The join of stats rows with their tracks, dropping rows whose track
      is gone. */
  function JoinStats(page: seq<FeedbackStats>, tracks: seq<Track>): (r: seq<StreamItem>)
    ensures var kept := Filter(page, StatsPresent(tracks));
      && |r| == |kept|
      && forall i :: 0 <= i < |r| ==> Some(r[i].track) == FindTrack(tracks, kept[i].trackId) && r[i].feedbackStats == Some(kept[i])
  {
    var kept := Filter(page, StatsPresent(tracks));
    seq(|kept|, i requires 0 <= i < |kept| => StreamItem(FindTrack(tracks, kept[i].trackId).value, Some(kept[i])))
  }

  /** The join keeps a most-feedback-first order. */
  lemma JoinStatsOrdered(page: seq<FeedbackStats>, tracks: seq<Track>)
    requires NonIncreasing(page, TotalKey)
    ensures var r := JoinStats(page, tracks);
      forall i, j :: 0 <= i < j < |r| ==> r[i].feedbackStats.value.totalFeedback >= r[j].feedbackStats.value.totalFeedback
  {
    var kept := Filter(page, StatsPresent(tracks));
    FilterNonIncreasing(page, StatsPresent(tracks), TotalKey);
    forall i, j | 0 <= i < j < |kept| ensures kept[i].totalFeedback >= kept[j].totalFeedback {
      assert TotalKey(kept[i]) >= TotalKey(kept[j]);
    }
  }

  /** Each joined item is an existing track with a stats row of the page. */
  lemma JoinStatsFrom(page: seq<FeedbackStats>, tracks: seq<Track>)
    ensures var r := JoinStats(page, tracks);
      && |r| <= |page|
      && forall i :: 0 <= i < |r| ==>
           r[i].feedbackStats.Some? && r[i].feedbackStats.value in page &&
           r[i].track in tracks && r[i].track.id == r[i].feedbackStats.value.trackId
  {
    var kept := Filter(page, StatsPresent(tracks));
    var r := JoinStats(page, tracks);
    forall i | 0 <= i < |r|
      ensures r[i].feedbackStats.value in page && r[i].track in tracks && r[i].track.id == r[i].feedbackStats.value.trackId
  {
      assert kept[i] in kept;
    }
  }

  /** The "trending" order: stats rows with feedback, most feedback first
      (newest row first on ties), `limit + offset` of them, minus the first
      `offset`. */
  function StreamTrending(stats: seq<FeedbackStats>, tracks: seq<Track>, lim: nat, off: nat): seq<StreamItem> {
    JoinStats(TrendingPage(stats, lim, off), tracks)
  }

  /** The stats rows of a "trending" page, before the join. */
  function TrendingPage(stats: seq<FeedbackStats>, lim: nat, off: nat): seq<FeedbackStats> {
    var rows := SortDesc(Reverse(Filter(stats, TotalAbove(0))), TotalKey);
    var taken := Take(rows, lim + off);
    Slice(taken, off, |taken|)
  }

  /** The "controversial" order: stats rows with more than 5 reactions and
      an average within 0.5 of 2.5, most feedback first, one page. */
  function StreamControversial(stats: seq<FeedbackStats>, tracks: seq<Track>, lim: nat, off: nat): seq<StreamItem> {
    JoinStats(ControversialPage(stats, lim, off), tracks)
  }

  /** The stats rows of a "controversial" page, before the join. */
  function ControversialPage(stats: seq<FeedbackStats>, lim: nat, off: nat): seq<FeedbackStats> {
    var rows := SortDesc(Filter(stats, TotalAbove(5)), FewestFirst);
    var controversial := SortDesc(Filter(rows, MixedRating()), TotalKey);
    Slice(controversial, off, off + lim)
  }

  function TrackIds(rows: seq<Feedback>): (r: seq<TrackId>)
    ensures |r| == |rows| && forall i :: 0 <= i < |rows| ==> r[i] == rows[i].trackId
  {
    seq(|rows|, i requires 0 <= i < |rows| => rows[i].trackId)
  }

  function NewestFirst(f: Feedback): real {
    f.timestamp as real
  }

  /** The join of track ids with their tracks and stats rows. */
  function JoinIds(ids: seq<TrackId>, tracks: seq<Track>, stats: seq<FeedbackStats>): (r: seq<StreamItem>)
    ensures var kept := Filter(ids, IdPresent(tracks));
      && |r| == |kept|
      && forall i :: 0 <= i < |r| ==>
           r[i].track.id == kept[i] && Some(r[i].track) == FindTrack(tracks, kept[i]) &&
           r[i].feedbackStats == StatsFor(stats, kept[i])
  {
    var found := Resolve(ids, tracks);
    seq(|found|, i requires 0 <= i < |found| => StreamItem(found[i], StatsFor(stats, found[i].id)))
  }

  /** Each joined item is an existing track of the page with its stats
      row; distinct ids give distinct tracks. */
  lemma JoinIdsFrom(ids: seq<TrackId>, tracks: seq<Track>, stats: seq<FeedbackStats>)
    ensures var r := JoinIds(ids, tracks, stats);
      && |r| <= |ids|
      && (forall i :: 0 <= i < |r| ==>
            r[i].track in tracks && r[i].track.id in ids && r[i].feedbackStats == StatsFor(stats, r[i].track.id))
      && (Distinct(ids) ==> forall i, j :: 0 <= i < j < |r| ==> r[i].track.id != r[j].track.id)
  {
    var kept := Filter(ids, IdPresent(tracks));
    var r := JoinIds(ids, tracks, stats);
    forall i | 0 <= i < |r| ensures r[i].track in tracks && r[i].track.id in ids {
      assert kept[i] in kept;
    }
    if Distinct(ids) {
      FilterDistinct(ids, IdPresent(tracks));
    }
  }

  /** The default "recent" order: the `2 * limit` newest reactions, their
      tracks without repetition in order of first appearance, one page. */
  function StreamRecent(feedback: seq<Feedback>, stats: seq<FeedbackStats>, tracks: seq<Track>, lim: nat, off: nat): seq<StreamItem> {
    JoinIds(RecentPage(feedback, lim, off), tracks, stats)
  }

  /** The track ids of a "recent" page, before the join. */
  function RecentPage(feedback: seq<Feedback>, lim: nat, off: nat): seq<TrackId> {
    var recentFeedback := Take(SortDesc(Reverse(feedback), NewestFirst), lim * 2);
    var uniqueTrackIds := Unique(TrackIds(recentFeedback));
    Slice(uniqueTrackIds, off, off + lim)
  }

  /** `getFeedbackStream`: order defaults to "recent", limit to 20, offset
      to 0; an unknown order is read as "recent". */
  function GetFeedbackStream(feedback: seq<Feedback>, stats: seq<FeedbackStats>, tracks: seq<Track>,
                             sortBy: Option<string>, limit: Option<nat>, offset: Option<nat>): (r: seq<StreamItem>)
    ensures |r| <= CountOrElse(limit, 20)
    ensures sortBy == Some("trending") ==>
      r == StreamTrending(stats, tracks, CountOrElse(limit, 20), CountOrElse(offset, 0))
    ensures sortBy == Some("controversial") ==>
      r == StreamControversial(stats, tracks, CountOrElse(limit, 20), CountOrElse(offset, 0))
    ensures sortBy != Some("trending") && sortBy != Some("controversial") ==>
      r == StreamRecent(feedback, stats, tracks, CountOrElse(limit, 20), CountOrElse(offset, 0))
  {
    var order := OrElse(sortBy, "recent");
    var lim := CountOrElse(limit, 20);
    var off := CountOrElse(offset, 0);
    if order == "trending" then
      StreamTrendingItems(stats, tracks, lim, off);
      StreamTrending(stats, tracks, lim, off)
    else if order == "controversial" then
      StreamControversialItems(stats, tracks, lim, off);
      StreamControversial(stats, tracks, lim, off)
    else
      StreamRecentItems(feedback, stats, tracks, lim, off);
      StreamRecent(feedback, stats, tracks, lim, off)
  }

  /** "trending": at most `limit` items, each an existing track with a stats
      row that has feedback, most feedback first. */
  /** The "trending" page holds at most `limit` stats rows with feedback,
      most feedback first. */
  lemma TrendingPageRows(stats: seq<FeedbackStats>, lim: nat, off: nat)
    ensures var page := TrendingPage(stats, lim, off);
      && |page| <= lim
      && NonIncreasing(page, TotalKey)
      && forall x :: x in page ==> x in stats && x.totalFeedback > 0
  {
    var withFeedback := Filter(stats, TotalAbove(0));
    var rows := SortDesc(Reverse(withFeedback), TotalKey);
    var taken := Take(rows, lim + off);
    SliceElements(taken, off, |taken|);
    SliceElements(rows, 0, lim + off);
    ReverseElements(withFeedback);
    forall x | x in rows ensures x in withFeedback {
      SortedElements(Reverse(withFeedback), TotalKey, x);
    }
    SliceNonIncreasing(rows, 0, lim + off, TotalKey);
    SliceNonIncreasing(taken, off, |taken|, TotalKey);
  }

  lemma StreamTrendingItems(stats: seq<FeedbackStats>, tracks: seq<Track>, lim: nat, off: nat)
    ensures var r := StreamTrending(stats, tracks, lim, off);
      && |r| <= lim
      && (forall i :: 0 <= i < |r| ==>
            r[i].feedbackStats.Some? && r[i].feedbackStats.value in stats && r[i].feedbackStats.value.totalFeedback > 0 &&
            r[i].track in tracks && r[i].track.id == r[i].feedbackStats.value.trackId)
      && (forall i, j :: 0 <= i < j < |r| ==> r[i].feedbackStats.value.totalFeedback >= r[j].feedbackStats.value.totalFeedback)
  {
    TrendingPageRows(stats, lim, off);
    JoinStatsFrom(TrendingPage(stats, lim, off), tracks);
    JoinStatsOrdered(TrendingPage(stats, lim, off), tracks);
  }

  /** "controversial": at most `limit` items, each an existing track whose
      stats row has more than 5 reactions and an average strictly between
      2 and 3, most feedback first. */
  /** The "controversial" page holds at most `limit` stats rows with more
      than 5 reactions and a mixed average, most feedback first. */
  lemma ControversialPageRows(stats: seq<FeedbackStats>, lim: nat, off: nat)
    ensures var page := ControversialPage(stats, lim, off);
      && |page| <= lim
      && NonIncreasing(page, TotalKey)
      && forall x :: x in page ==> x in stats && x.totalFeedback > 5 && Mixed(x)
  {
    var many := Filter(stats, TotalAbove(5));
    var mixed := Filter(SortDesc(many, FewestFirst), MixedRating());
    var controversial := SortDesc(mixed, TotalKey);
    SliceElements(controversial, off, off + lim);
    forall x | x in controversial ensures x in many && Mixed(x) {
      SortedElements(mixed, TotalKey, x);
      SortedElements(many, FewestFirst, x);
    }
    SliceNonIncreasing(controversial, off, off + lim, TotalKey);
  }

  lemma StreamControversialItems(stats: seq<FeedbackStats>, tracks: seq<Track>, lim: nat, off: nat)
    ensures var r := StreamControversial(stats, tracks, lim, off);
      && |r| <= lim
      && (forall i :: 0 <= i < |r| ==>
            r[i].feedbackStats.Some? && r[i].feedbackStats.value in stats && r[i].feedbackStats.value.totalFeedback > 5 &&
            Mixed(r[i].feedbackStats.value) && r[i].track in tracks && r[i].track.id == r[i].feedbackStats.value.trackId)
      && (forall i, j :: 0 <= i < j < |r| ==> r[i].feedbackStats.value.totalFeedback >= r[j].feedbackStats.value.totalFeedback)
  {
    ControversialPageRows(stats, lim, off);
    JoinStatsFrom(ControversialPage(stats, lim, off), tracks);
    JoinStatsOrdered(ControversialPage(stats, lim, off), tracks);
  }

  /** Every id among the newest `n` rows' track ids belongs to a feedback
      row. */
  lemma RecentIdHasFeedback(feedback: seq<Feedback>, n: nat, id: TrackId)
    requires id in TrackIds(Take(SortDesc(Reverse(feedback), NewestFirst), n))
    ensures exists f :: f in feedback && f.trackId == id
  {
    var newest := SortDesc(Reverse(feedback), NewestFirst);
    var ids := TrackIds(Take(newest, n));
    var m :| 0 <= m < |ids| && ids[m] == id;
    var f := newest[m];
    SortedElements(Reverse(feedback), NewestFirst, f);
    var j :| 0 <= j < |Reverse(feedback)| && Reverse(feedback)[j] == f;
    assert f == feedback[|feedback| - 1 - j];
  }

  /** "recent": at most `limit` items, distinct existing tracks that have
      feedback, each with its stats row when there is one. */
  /** The "recent" page holds at most `limit` distinct track ids, each of
      a track that has feedback. */
  lemma RecentPageIds(feedback: seq<Feedback>, lim: nat, off: nat)
    ensures var page := RecentPage(feedback, lim, off);
      && |page| <= lim
      && Distinct(page)
      && forall id :: id in page ==> exists f :: f in feedback && f.trackId == id
  {
    var uniqueTrackIds := Unique(TrackIds(Take(SortDesc(Reverse(feedback), NewestFirst), lim * 2)));
    var page := Slice(uniqueTrackIds, off, off + lim);
    assert Distinct(page) by {
      forall i, j | 0 <= i < j < |page| ensures page[i] != page[j] {
        assert page[i] == uniqueTrackIds[off + i] && page[j] == uniqueTrackIds[off + j];
      }
    }
    SliceElements(uniqueTrackIds, off, off + lim);
    forall id | id in page ensures exists f :: f in feedback && f.trackId == id {
      RecentIdHasFeedback(feedback, lim * 2, id);
    }
  }

  lemma StreamRecentItems(feedback: seq<Feedback>, stats: seq<FeedbackStats>, tracks: seq<Track>, lim: nat, off: nat)
    ensures var r := StreamRecent(feedback, stats, tracks, lim, off);
      && |r| <= lim
      && (forall i, j :: 0 <= i < j < |r| ==> r[i].track.id != r[j].track.id)
      && (forall i :: 0 <= i < |r| ==>
            r[i].track in tracks && r[i].feedbackStats == StatsFor(stats, r[i].track.id) &&
            exists f :: f in feedback && f.trackId == r[i].track.id)
  {
    RecentPageIds(feedback, lim, off);
    JoinIdsFrom(RecentPage(feedback, lim, off), tracks, stats);
  }

  /** A page of a permutation of `rows` drops nothing in the join when
      every row's track exists. */
  lemma StatsPageFull(sorted: seq<FeedbackStats>, rows: seq<FeedbackStats>, tracks: seq<Track>, lim: nat, off: nat)
    requires multiset(sorted) == multiset(rows)
    requires forall st :: st in rows ==> FindTrack(tracks, st.trackId).Some?
    ensures Filter(Slice(sorted, off, off + lim), StatsPresent(tracks)) == Slice(sorted, off, off + lim)
    ensures |Slice(sorted, off, off + lim)| == Min(lim, Max(0, |rows| - off))
  {
    var page := Slice(sorted, off, off + lim);
    forall i | 0 <= i < |page| ensures StatsPresent(tracks)(page[i]) {
      assert page[i] in multiset(sorted);
    }
    FilterAll(page, StatsPresent(tracks));
    assert |sorted| == |rows| by {
      assert |multiset(sorted)| == |multiset(rows)|;
    }
    PageLength(sorted, lim, off);
  }

  /** `r` is read from `sorted`: the items of its page `[off, off + lim)`
      whose track exists, in that order. */
  predicate StatsPageOf(r: seq<StreamItem>, sorted: seq<FeedbackStats>, tracks: seq<Track>, lim: nat, off: nat) {
    var page := Filter(Slice(sorted, off, off + lim), StatsPresent(tracks));
    |r| == |page| && forall i :: 0 <= i < |r| ==> r[i].feedbackStats == Some(page[i])
  }

  /** Which "trending" page is returned: with the stats rows that have
      feedback put most feedback first, the items are their page
      `[off, off + limit)` minus the rows whose track is gone. */
  lemma StreamTrendingPage(stats: seq<FeedbackStats>, tracks: seq<Track>, lim: nat, off: nat)
    ensures var r := StreamTrending(stats, tracks, lim, off);
      exists sorted: seq<FeedbackStats> ::
        && multiset(sorted) == multiset(Filter(stats, TotalAbove(0)))
        && NonIncreasing(sorted, TotalKey)
        && StatsPageOf(r, sorted, tracks, lim, off)
  {
    var withFeedback := Filter(stats, TotalAbove(0));
    var rows := SortDesc(Reverse(withFeedback), TotalKey);
    ReversePermutation(withFeedback);
    TakeThenSlice(rows, lim, off);
    assert TrendingPage(stats, lim, off) == Slice(rows, off, off + lim);
    assert StatsPageOf(StreamTrending(stats, tracks, lim, off), rows, tracks, lim, off);
  }

  /** The "trending" page is the page `[off, off + lim)` of the sorted
      rows with feedback. */
  lemma TrendingPageSlice(stats: seq<FeedbackStats>, lim: nat, off: nat)
    ensures TrendingPage(stats, lim, off) == Slice(SortDesc(Reverse(Filter(stats, TotalAbove(0))), TotalKey), off, off + lim)
  {
    TakeThenSlice(SortDesc(Reverse(Filter(stats, TotalAbove(0))), TotalKey), lim, off);
  }

  /** When the track of every row with feedback exists, the join keeps
      the whole "trending" page. */
  lemma TrendingPageFull(stats: seq<FeedbackStats>, tracks: seq<Track>, lim: nat, off: nat)
    requires forall st :: st in Filter(stats, TotalAbove(0)) ==> FindTrack(tracks, st.trackId).Some?
    ensures Filter(TrendingPage(stats, lim, off), StatsPresent(tracks)) == TrendingPage(stats, lim, off)
    ensures |TrendingPage(stats, lim, off)| == Min(lim, Max(0, |Filter(stats, TotalAbove(0))| - off))
  {
    var withFeedback := Filter(stats, TotalAbove(0));
    var rows := SortDesc(Reverse(withFeedback), TotalKey);
    TrendingPageSlice(stats, lim, off);
    ReversePermutation(withFeedback);
    StatsPageFull(rows, withFeedback, tracks, lim, off);
  }

  /** When every stats row's track exists, the "trending" stream drops
      nothing: the page is full up to the number of rows with feedback. */
  lemma StreamTrendingFull(stats: seq<FeedbackStats>, tracks: seq<Track>, lim: nat, off: nat)
    requires forall st :: st in stats ==> FindTrack(tracks, st.trackId).Some?
    ensures |StreamTrending(stats, tracks, lim, off)| == Min(lim, Max(0, |Filter(stats, TotalAbove(0))| - off))
  {
    var withFeedback := Filter(stats, TotalAbove(0));
    forall st | st in withFeedback ensures FindTrack(tracks, st.trackId).Some? {
      assert st in stats;
    }
    TrendingPageFull(stats, tracks, lim, off);
  }

  /** Which "controversial" page is returned: with all stats rows of more
      than 5 reactions and a mixed average put most feedback first, the
      items are their page `[off, off + limit)` minus the rows whose track
      is gone. When every track exists nothing is dropped. */
  lemma StreamControversialPage(stats: seq<FeedbackStats>, tracks: seq<Track>, lim: nat, off: nat)
    ensures var r := StreamControversial(stats, tracks, lim, off);
      exists sorted: seq<FeedbackStats> ::
        && multiset(sorted) == multiset(Filter(Filter(stats, TotalAbove(5)), MixedRating()))
        && NonIncreasing(sorted, TotalKey)
        && StatsPageOf(r, sorted, tracks, lim, off)
    ensures (forall st :: st in stats ==> FindTrack(tracks, st.trackId).Some?) ==>
      |StreamControversial(stats, tracks, lim, off)| ==
        Min(lim, Max(0, |Filter(Filter(stats, TotalAbove(5)), MixedRating())| - off))
  {
    var many := Filter(stats, TotalAbove(5));
    var eligible := Filter(many, MixedRating());
    var controversial := SortDesc(Filter(SortDesc(many, FewestFirst), MixedRating()), TotalKey);
    FilterPermutation(SortDesc(many, FewestFirst), many, MixedRating());
    assert multiset(controversial) == multiset(eligible);
    assert ControversialPage(stats, lim, off) == Slice(controversial, off, off + lim);
    assert StatsPageOf(StreamControversial(stats, tracks, lim, off), controversial, tracks, lim, off);
    if forall st :: st in stats ==> FindTrack(tracks, st.trackId).Some? {
      StatsPageFull(controversial, eligible, tracks, lim, off);
    }
  }

  /** `r` is the "recent" page read from `newest`, an ordering of the
      feedback: the page `[off, off + limit)` of the distinct tracks of its
      first `2 * limit` rows, in the order of their first appearance
      (`UniqueOrder`), minus the tracks that are gone. When every
      reacted-to track exists nothing is dropped. */
  predicate RecentPageOf(r: seq<StreamItem>, newest: seq<Feedback>, feedback: seq<Feedback>, tracks: seq<Track>,
                         lim: nat, off: nat) {
    var ids := Unique(TrackIds(Take(newest, 2 * lim)));
    var page := Filter(Slice(ids, off, off + lim), IdPresent(tracks));
    && |r| == |page|
    && (forall i :: 0 <= i < |r| ==> r[i].track.id == page[i])
    && ((forall f :: f in feedback ==> FindTrack(tracks, f.trackId).Some?) ==> |r| == Min(lim, Max(0, |ids| - off)))
  }

  /** Which "recent" page is returned: with the feedback put newest first,
      the items are the page `[off, off + limit)` of the distinct tracks of
      the `2 * limit` newest reactions, in the order of their first
      appearance (`UniqueOrder`), minus the tracks that are gone. When every
      reacted-to track exists nothing is dropped. */
  /** When every reacted-to track exists, the join keeps the whole
      "recent" page. */
  lemma RecentPageFull(feedback: seq<Feedback>, tracks: seq<Track>, lim: nat, off: nat)
    requires forall f :: f in feedback ==> FindTrack(tracks, f.trackId).Some?
    ensures Filter(RecentPage(feedback, lim, off), IdPresent(tracks)) == RecentPage(feedback, lim, off)
  {
    var page := RecentPage(feedback, lim, off);
    RecentPageIds(feedback, lim, off);
    forall i | 0 <= i < |page| ensures IdPresent(tracks)(page[i]) {
      assert page[i] in page;
    }
    FilterAll(page, IdPresent(tracks));
  }

  lemma StreamRecentPage(feedback: seq<Feedback>, stats: seq<FeedbackStats>, tracks: seq<Track>, lim: nat, off: nat)
    ensures var r := StreamRecent(feedback, stats, tracks, lim, off);
      exists newest: seq<Feedback> ::
        && multiset(newest) == multiset(feedback)
        && NonIncreasing(newest, NewestFirst)
        && RecentPageOf(r, newest, feedback, tracks, lim, off)
  {
    var newest := SortDesc(Reverse(feedback), NewestFirst);
    ReversePermutation(feedback);
    assert lim * 2 == 2 * lim;
    var ids := Unique(TrackIds(Take(newest, 2 * lim)));
    var page := RecentPage(feedback, lim, off);
    assert page == Slice(ids, off, off + lim);
    PageLength(ids, lim, off);
    if forall f :: f in feedback ==> FindTrack(tracks, f.trackId).Some? {
      RecentPageFull(feedback, tracks, lim, off);
    }
    assert RecentPageOf(StreamRecent(feedback, stats, tracks, lim, off), newest, feedback, tracks, lim, off);
  }

  /** "trending" as `getFeedbackStream` promises it: at most `limit`
      existing tracks whose stats rows have feedback, most feedback first,
      forming the page `[off, off + limit)` of all such rows in that order
      minus the rows whose track is gone; nothing is dropped when every
      track exists. */
  lemma StreamTrendingSpec(stats: seq<FeedbackStats>, tracks: seq<Track>, lim: nat, off: nat)
    ensures var r := StreamTrending(stats, tracks, lim, off);
      && |r| <= lim
      && (forall i :: 0 <= i < |r| ==>
            r[i].feedbackStats.Some? && r[i].feedbackStats.value in stats && r[i].feedbackStats.value.totalFeedback > 0 &&
            r[i].track in tracks && r[i].track.id == r[i].feedbackStats.value.trackId)
      && (forall i, j :: 0 <= i < j < |r| ==> r[i].feedbackStats.value.totalFeedback >= r[j].feedbackStats.value.totalFeedback)
      && (exists sorted: seq<FeedbackStats> ::
            && multiset(sorted) == multiset(Filter(stats, TotalAbove(0)))
            && NonIncreasing(sorted, TotalKey)
            && StatsPageOf(r, sorted, tracks, lim, off))
      && ((forall st :: st in stats ==> FindTrack(tracks, st.trackId).Some?) ==>
            |r| == Min(lim, Max(0, |Filter(stats, TotalAbove(0))| - off)))
  {    StreamTrendingItems(stats, tracks, lim, off);
    StreamTrendingPage(stats, tracks, lim, off);
    if forall st :: st in stats ==> FindTrack(tracks, st.trackId).Some? {
      StreamTrendingFull(stats, tracks, lim, off);
    }
  }

  /** "controversial" as `getFeedbackStream` promises it: at most `limit`
      existing tracks with more than 5 reactions and a mixed average, most
      feedback first, forming the page `[off, off + limit)` of all such
      rows in that order minus the rows whose track is gone; nothing is
      dropped when every track exists. */
  lemma StreamControversialSpec(stats: seq<FeedbackStats>, tracks: seq<Track>, lim: nat, off: nat)
    ensures var r := StreamControversial(stats, tracks, lim, off);
      && |r| <= lim
      && (forall i :: 0 <= i < |r| ==>
            r[i].feedbackStats.Some? && r[i].feedbackStats.value in stats && r[i].feedbackStats.value.totalFeedback > 5 &&
            Mixed(r[i].feedbackStats.value) && r[i].track in tracks && r[i].track.id == r[i].feedbackStats.value.trackId)
      && (forall i, j :: 0 <= i < j < |r| ==> r[i].feedbackStats.value.totalFeedback >= r[j].feedbackStats.value.totalFeedback)
      && (exists sorted: seq<FeedbackStats> ::
            && multiset(sorted) == multiset(Filter(Filter(stats, TotalAbove(5)), MixedRating()))
            && NonIncreasing(sorted, TotalKey)
            && StatsPageOf(r, sorted, tracks, lim, off))
      && ((forall st :: st in stats ==> FindTrack(tracks, st.trackId).Some?) ==>
            |r| == Min(lim, Max(0, |Filter(Filter(stats, TotalAbove(5)), MixedRating())| - off)))
  {
    StreamControversialItems(stats, tracks, lim, off);
    StreamControversialPage(stats, tracks, lim, off);
  }

  /** "recent" as `getFeedbackStream` promises it: at most `limit` distinct
      existing tracks that have feedback, each with its stats row; with the
      feedback put newest first, they are the page `[off, off + limit)` of
      the distinct tracks of the `2 * limit` newest reactions in the order
      of first appearance, minus the tracks that are gone; nothing is
      dropped when every reacted-to track exists. */
  lemma StreamRecentSpec(feedback: seq<Feedback>, stats: seq<FeedbackStats>, tracks: seq<Track>, lim: nat, off: nat)
    ensures var r := StreamRecent(feedback, stats, tracks, lim, off);
      && |r| <= lim
      && (forall i, j :: 0 <= i < j < |r| ==> r[i].track.id != r[j].track.id)
      && (forall i :: 0 <= i < |r| ==>
            r[i].track in tracks && r[i].feedbackStats == StatsFor(stats, r[i].track.id) &&
            exists f :: f in feedback && f.trackId == r[i].track.id)
    ensures var r := StreamRecent(feedback, stats, tracks, lim, off);
      exists newest: seq<Feedback> ::
        && multiset(newest) == multiset(feedback)
        && NonIncreasing(newest, NewestFirst)
        && RecentPageOf(r, newest, feedback, tracks, lim, off)
  {
    StreamRecentItems(feedback, stats, tracks, lim, off);
    StreamRecentPage(feedback, stats, tracks, lim, off);
  }
}
