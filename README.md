# Music feedback platform: a verified model of its core

This project models the core of a music-sharing app. On the backend, signed-in users upload tracks and build playlists. Artists keep a profile that is looked up by a URL slug. Listeners react to tracks with one of four reactions (love, like, meh, dislike). Per-track statistics are kept in step with those reactions, and a periodic run ranks the tracks by a recency-weighted score. On the client, the model covers:

- an undo/redo history;
- extraction of a colour palette from image pixels;
- classification of the device from its screen size;
- a touch-gesture recogniser;
- tab switching by horizontal swipe.

Each backend table is a sequence of rows in creation order, so a query's result order can be stated. The caller's identity (`Option<UserId>`), the clock (`now`) and the random part of a generated session id (`nonce`) are parameters. State the source changes in place is a `class`: the tables of each backend module, the undo history, the device detector, the gesture recogniser and the swipe navigator. Pure computations are functions. The loops of the source are methods with loop invariants: the stats tally, the trending aggregation, the trending delete and insert loops, the colour count and the accent search. Each of them is proved equal to a specification function, and the properties are proved about those functions.

Timers in the gesture recogniser (`setTimeout`) are explicit: a scheduled timer is an entry of `timers`, and its firing is the event `FireTimer`, which may happen in any order. Distances are compared squared, so no square root is taken. The finger spread of a pinch is an input of the touch event.

The model follows the code in these points, where the comments and names in the code suggest otherwise:

- the rate limit on reactions (the "Rate limiting check" at convex/feedback.ts:36-46) applies to every caller with a user id, even when the reaction is anonymous;
- a repeated reaction also overwrites the stored `deviceType`;
- the trending ranking (convex/feedback.ts:465-471) is non-increasing rather than strictly decreasing. Ties keep stable-sort order of first appearance;
- the recency weight ("More recent = higher weight", convex/feedback.ts:456) lies in (0, 1] only for reactions timestamped no later than the run.

## Model

| member | source | states |
|---|---|---|
| Common.OrElse | convex/feedback.ts:271 | `x \|\| d` on an optional string: a present non-empty value wins and anything else gives the default |
| Common.CountOrElse | convex/feedback.ts:272 | `n \|\| d` on an optional count: 0 and absence both give the default |
| Common.Slice | convex/feedback.ts:370 | `slice(lo, hi)` with clamped bounds: the length is the clamped width and element i is `s[lo + i]` |
| Common.Take | convex/feedback.ts:286 | `take(n)` is the first `min(n, |s|)` rows |
| Common.Filter | convex/feedback.ts:403 | a filter keeps exactly the elements satisfying the predicate, and no more elements than it had |
| Common.Unique | convex/feedback.ts:386 | `[...new Set(s)]` has no repetition and the same elements as `s` |
| Common.UniqueOrder | convex/feedback.ts:386 | `[...new Set(s)]` lists the elements in the order of their first occurrence in `s` |
| Common.ReversePermutation | convex/feedback.ts:346-352 | reading an index backwards keeps every row, as many times as it occurs |
| Common.FilterPermutation | convex/feedback.ts:360-370 | filtering a permutation of a list gives a permutation of the filtered list |
| Common.TakeThenSlice | convex/feedback.ts:346-355 | `take(limit + offset)` followed by `slice(offset)` is the page `slice(offset, offset + limit)` |
| Common.NatToString | convex/feedback.ts:84 | `String(n)` is a non-empty string of decimal digits |
| Common.FirstWhere | convex/feedback.ts:54 | `.first()` returns the first matching position, and none exactly when nothing matches |
| Sorting.SortDesc | convex/feedback.ts:465-471 | the descending sort by a key is ordered non-increasingly and is a permutation of its input |
| Sorting.PermutationKeepsDistinct | convex/feedback.ts:465-471 | a permutation of a list without repeated ids has no repeated ids |
| Feedback.Score | convex/feedback.ts:10-15 | every reaction scores between 1 and 4 |
| Feedback.ComputeStats | convex/feedback.ts:159-178 | the counting loop produces exactly the tally of the track's rows: per-kind counts, total and mean score |
| Feedback.CountsSumToTotal | convex/feedback.ts:164-174 | the four per-kind counts add up to the number of rows |
| Feedback.TotalScoreByKind | convex/feedback.ts:169-174 | the summed score is 4·love + 3·like + 2·meh + dislike |
| Feedback.AverageRange | convex/feedback.ts:176-178 | the average is 0 exactly when there are no rows, and otherwise lies in [1, 4] |
| Feedback.AgreeingStatsConsistent | convex/feedback.ts:153-194 | a stats row recomputed from the table has counts that sum to its total, a total equal to the track's row count, and an average that is 0 or in [1, 4] |
| Feedback.RowsForAppendOther | convex/feedback.ts:77-85 | inserting a row of one track leaves every other track's rows unchanged |
| Feedback.RowsForUpdateOther | convex/feedback.ts:113-119 | patching a row of one track leaves every other track's rows unchanged |
| Feedback.RowsForRemoveOther | convex/feedback.ts:142-146 | deleting a row of one track leaves every other track's rows unchanged |
| Trending.WindowOf | convex/feedback.ts:435-442 | the window is 1h, 7d or 30d for those labels, and 24h for every other label |
| Trending.WeightRange | convex/feedback.ts:456 | the recency weight lies in (0, 1] for a time after the cutoff and no later than the run |
| Trending.ContributionRange | convex/feedback.ts:456-459 | one reaction inside the window contributes a weighted score in (0, 4] |
| Trending.IndexOfTrack | convex/feedback.ts:455 | `trackScores.get` finds the track's accumulator, and none exactly when the track has none |
| Trending.AggregateScores | convex/feedback.ts:452-462 | the grouping loop computes exactly the accumulators of `Aggregate` |
| Trending.AggregateCorrect | convex/feedback.ts:452-462 | there is one accumulator per track that has recent rows, and it holds the count and weighted-score sum of exactly those rows |
| Trending.AccumulateTally | convex/feedback.ts:455-461 | one loop step keeps every accumulator equal to its track's tally |
| Trending.RecentElements | convex/feedback.ts:446-449 | the recent rows are exactly the rows newer than the cutoff |
| Trending.RankedDistinct | convex/feedback.ts:465-471 | the ranking holds each track at most once |
| Trending.EntriesRanked | convex/feedback.ts:484-494 | the insert loop numbers entries 1, 2, … under the run's label, category "all" and time, and keeps the ranking's order and distinct tracks |
| Trending.ProcessedCount | convex/feedback.ts:446-496 | the `processed` count a run returns is the number of distinct tracks with feedback newer than the cutoff |
| Trending.TrendingRanks | convex/feedback.ts:465-496 | a run yields at most 100 entries, ranked 1, 2, … by non-increasing score, each track at most once |
| Trending.TrendingCoverage | convex/feedback.ts:446-494 | a track is ranked only if it has feedback newer than the cutoff; with at most 100 such tracks, every one of them is ranked |
| Trending.RankedHasFeedback | convex/feedback.ts:446-494 | every ranked entry's track has feedback newer than the cutoff |
| Trending.FeedbackIsRanked | convex/feedback.ts:446-494 | with at most 100 ranked tracks, a track with feedback newer than the cutoff is among the entries |
| Trending.TrendingScoreRange | convex/feedback.ts:452-471 | when no reaction is later than the run, every trending score lies in (0, 4] |
| Trending.WeightedSumBounds | convex/feedback.ts:459-468 | rows inside the window sum to a weighted score between 0 and 4 per row, positive when there are any |
| FeedbackStore.Existing | convex/feedback.ts:49-62 | a signed-in, non-anonymous caller's earlier row on the track is found by user, and none exactly when they have no row on it; otherwise, with a session id, the row found has that session id and the track, and none exactly when no row has both; without a session id there is none |
| FeedbackStore.SubmitCheck | convex/feedback.ts:30-46 | a missing track fails first; a signed-in caller with 30 or more rows in the last minute (`RateLimited`) is rate limited; otherwise the submission passes |
| FeedbackStore.ModifyCheck | convex/feedback.ts:104-111 | a missing id gives "not found"; a row that is neither anonymous nor the caller's (`CanModify` fails) gives "not authorized"; otherwise it returns the row's position |
| FeedbackStore.LockedRow | convex/feedback.ts:109 | a non-anonymous row stored without a user id can be changed by nobody |
| FeedbackStore.OwnerMayModify | convex/feedback.ts:109 | an anonymous row, or a row owned by the caller, passes the guard |
| FeedbackStore.StatsFor | convex/feedback.ts:181-184 | the `by_track` lookup returns a stats row of that track, and none exactly when none exists |
| FeedbackStore.StatsQueryMatchesFeedback | convex/feedback.ts:196-221 | when the tables are in step, `getFeedbackStats` (`GetFeedbackStats`) reports exactly the tally of the track's rows, whether or not a stats row exists |
| FeedbackStore.UpsertShape | convex/feedback.ts:181-193 | writing a stats row keeps one row per track and leaves the other tracks' rows alone |
| FeedbackStore.UpsertKeepsConsistent | convex/feedback.ts:153-194 | a recount after a change to one track's rows puts the stats table back in step with the feedback table |
| FeedbackStore.NewRow | convex/feedback.ts:73-86 | a first submission stores no user id exactly when the caller is anonymous or signed out (and the caller otherwise); `isAnonymous` is false unless given as true; the device type defaults to "unknown"; the session id is the given one, or a non-empty "anon_…" token |
| FeedbackStore.SubmitShape | convex/feedback.ts:64-86 | `SubmitRows`: a submission rewrites the track's existing row, keeping its id, user and track, or it appends one new row; other tracks keep their rows |
| FeedbackStore.SubmitRecords | convex/feedback.ts:64-91 | after a submission, the row under the returned id holds the track, the reaction, the time and the device type (default "unknown") |
| FeedbackStore.SubmitKeepsOneRowPerUser | convex/feedback.ts:49-86 | a submission never gives a signed-in, non-anonymous user a second row for the same track |
| FeedbackStore.ResubmitReplaces | convex/feedback.ts:49-72 | a signed-in, non-anonymous user reacting to a track again does not grow the table; it returns the same id, and that row holds the new reaction |
| FeedbackStore.SessionResubmitReplaces | convex/feedback.ts:55-72 | a signed-out or anonymous caller reacting to a track again under the same session id does not grow the table; it returns the same id, and that row holds the new reaction, the session id and the track |
| FeedbackStore.OwnRow | convex/feedback.ts:64-86 | a signed-in, non-anonymous submission leaves a row of the user and the track under the returned id |
| FeedbackStore.OnlyRow | convex/feedback.ts:50-54 | with one row per user and track, a later submission finds that row |
| FeedbackStore.SubmitPreserves | convex/feedback.ts:17-93 | a submission followed by the recount keeps ids distinct and below the counter, one row per user and track, and the stats in step |
| FeedbackStore.UpdatePreserves | convex/feedback.ts:113-122 | changing a reaction followed by the recount keeps the table invariant |
| FeedbackStore.DeletePreserves | convex/feedback.ts:142-149 | deleting a reaction followed by the recount keeps the table invariant |
| FeedbackStore.FeedbackDb.constructor | convex/feedback.ts:17 | the store starts with empty feedback, stats and trending tables |
| FeedbackStore.FeedbackDb.UpdateFeedbackStats | convex/feedback.ts:153-194 | the stats table becomes the old one with the track's row replaced or added as the recount, and nothing else changes |
| FeedbackStore.FeedbackDb.SubmitFeedback | convex/feedback.ts:17-93 | it fails exactly when the guards fail and then changes nothing; otherwise the feedback table is the submission's result, the id counter advances by one exactly when a row was added, and the track's stats are recounted |
| FeedbackStore.FeedbackDb.WriteFeedback | convex/feedback.ts:48-86 | the caller's (or the session's) earlier row for the track is patched in place, or one new row is inserted under the next id, which then advances; the stats table is untouched |
| FeedbackStore.FeedbackDb.UpdateFeedback | convex/feedback.ts:95-123 | it fails exactly when the guards fail and then changes nothing; otherwise only the row's reaction and time change, and its track is recounted |
| FeedbackStore.FeedbackDb.DeleteFeedback | convex/feedback.ts:125-150 | it fails exactly when the guards fail and then changes nothing; otherwise exactly that row is removed, and its track is recounted |
| FeedbackStore.FeedbackDb.CalculateTrendingScores | convex/feedback.ts:429-498 | the timeframe's old entries are replaced by the run's ranking, other timeframes are kept, and the processed count and label are returned |
| FeedbackStore.FeedbackDb.ClearTimeframe | convex/feedback.ts:474-481 | the delete loop removes exactly the timeframe's entries |
| FeedbackStore.FeedbackDb.InsertRanking | convex/feedback.ts:484-494 | the insert loop appends the first (at most) 100 ranked entries |
| FeedbackQueries.JoinTrending | convex/feedback.ts:289-329 | the join drops entries whose track is gone and pairs each remaining entry with its track and stats row |
| FeedbackQueries.GetTrendingTracksItems | convex/feedback.ts:264-331 | `GetTrendingTracks` returns at most `limit` (default 20) tracks, in ascending rank, each joined with an entry of the timeframe (default "24h") and of the category unless it is "all"; nothing is dropped when every track exists |
| FeedbackQueries.GetTrendingTracksPage | convex/feedback.ts:273-331 | with the matching entries put in ascending rank order, the result is the first `limit` of them, minus those whose track is gone, each with its track, score, rank and stats row |
| FeedbackQueries.GetTrendingTracksSpec | convex/feedback.ts:264-331 | `getTrendingTracks` returns the lowest-ranked `limit` (default 20) entries of the timeframe (default "24h") and of the category unless it is "all", in ascending rank, joined with their tracks and stats, minus those whose track is gone; nothing is dropped when every track exists |
| FeedbackQueries.JoinStats | convex/feedback.ts:354-377 | the join keeps the stats rows whose track exists, each paired with that track |
| FeedbackQueries.JoinStatsOrdered | convex/feedback.ts:351-358 | the join keeps the most-feedback-first order |
| FeedbackQueries.TrackIds | convex/feedback.ts:386 | the mapped track ids correspond position by position to the rows |
| FeedbackQueries.JoinIds | convex/feedback.ts:389-398 | the join keeps the ids whose track exists, each with its track and stats row |
| FeedbackQueries.StreamTrendingItems | convex/feedback.ts:346-359 | `StreamTrending` gives at most `limit` items, each an existing track with a stats row that has feedback, most feedback first |
| FeedbackQueries.StreamTrendingPage | convex/feedback.ts:346-359 | the "trending" items are the page `[offset, offset + limit)` of the stats rows with feedback put most feedback first, minus rows whose track is gone |
| FeedbackQueries.StreamTrendingFull | convex/feedback.ts:346-359 | when every stats row's track exists, the "trending" page holds min(limit, rows with feedback − offset) items |
| FeedbackQueries.StreamTrendingSpec | convex/feedback.ts:346-359 | "trending" gives at most `limit` existing tracks with feedback, most feedback first, forming the page `[offset, offset + limit)` of all such stats rows in that order minus the rows whose track is gone; nothing is dropped when every track exists |
| FeedbackQueries.StreamControversialItems | convex/feedback.ts:360-377 | `StreamControversial` gives at most `limit` items, each with more than 5 reactions and an average strictly between 2 and 3, most feedback first |
| FeedbackQueries.StatsPageFull | convex/feedback.ts:354-377 | a page of a permutation of stats rows whose tracks all exist loses nothing in the join and holds min(limit, rows − offset) rows |
| FeedbackQueries.StreamControversialPage | convex/feedback.ts:360-377 | the "controversial" items are the page `[offset, offset + limit)` of all rows with more than 5 reactions and a mixed average put most feedback first, minus rows whose track is gone; nothing is dropped when every track exists |
| FeedbackQueries.StreamControversialSpec | convex/feedback.ts:360-377 | "controversial" gives at most `limit` existing tracks with more than 5 reactions and an average strictly between 2 and 3, most feedback first, forming the page `[offset, offset + limit)` of all such stats rows in that order minus the rows whose track is gone; nothing is dropped when every track exists |
| FeedbackQueries.RecentIdHasFeedback | convex/feedback.ts:380-386 | every id among the newest rows belongs to some feedback row |
| FeedbackQueries.StreamRecentItems | convex/feedback.ts:378-398 | `StreamRecent` gives at most `limit` distinct existing tracks that have feedback, each with its stats row when there is one |
| FeedbackQueries.StreamRecentPage | convex/feedback.ts:378-398 | with the feedback put newest first, the "recent" items are the page `[offset, offset + limit)` of the distinct tracks of the `2 * limit` newest reactions, in order of first appearance, minus tracks that are gone; nothing is dropped when every reacted-to track exists |
| FeedbackQueries.StreamRecentSpec | convex/feedback.ts:378-398 | "recent" gives at most `limit` distinct existing tracks that have feedback, each with its stats row, forming the page `[offset, offset + limit)` of the distinct tracks of the `2 * limit` newest reactions in order of first appearance, minus tracks that are gone; nothing is dropped when every reacted-to track exists |
| FeedbackQueries.GetFeedbackStream | convex/feedback.ts:333-342 | at most `limit` (default 20) items; "trending" and "controversial" select those orders, and any other, empty or missing order reads as "recent"; the offset defaults to 0 |
| Tracks.GenerateUploadUrl | convex/tracks.ts:5-14 | only a signed-in caller receives the issued URL; anybody else gets "not authenticated" |
| Tracks.FindTrack | convex/tracks.ts:110-113 | `db.get` finds the row with that id, and none exactly when no row has it |
| Tracks.Resolve | convex/playlists.ts:93-108 | resolving ids keeps the ids that name a track, in order, each mapped to that track |
| Tracks.ResolveAllPresent | convex/playlists.ts:93-108 | when every id names a track, nothing is dropped |
| Tracks.GetAllTracks | convex/tracks.ts:42-69 | all tracks, ordered by non-increasing upload time, as a permutation of the table |
| Tracks.GetUserTracks | convex/tracks.ts:71-83 | a signed-out caller gets nothing; a signed-in one gets each of their own tracks exactly as often as the table holds it, and no other track |
| Tracks.UserTracksNewestFirst | convex/tracks.ts:79-83 | in a table whose ids grow in creation order, the caller's tracks come latest-created first |
| Tracks.DeleteCheck | convex/tracks.ts:102-117 | signed in, then the track exists, then the caller uploaded it, with the matching three errors |
| Tracks.RemoveExactlyOne | convex/tracks.ts:119 | deleting by id removes exactly that one row and keeps the others in order |
| Tracks.TrackTable.constructor | convex/tracks.ts:16 | the table starts empty |
| Tracks.TrackTable.CreateTrack | convex/tracks.ts:16-40 | a signed-out caller changes nothing; otherwise one row with a fresh id is appended, owned by the caller, stamped with the time, with unset optional fields; ids stay distinct and growing in creation order |
| Tracks.TrackTable.DeleteTrack | convex/tracks.ts:102-122 | the result is the guard's; a failure changes nothing, and a success removes exactly the row with that id |
| Tracks.TrackTable.IndexOf | convex/tracks.ts:110 | it returns the position of the row with the id |
| Playlists.AccessCheck | convex/playlists.ts:33-39 | signed out gives "not authenticated"; a missing or foreign playlist gives "not found or denied"; otherwise the position of the caller's playlist |
| Playlists.WithTrack | convex/playlists.ts:41-46 | adding puts the track in the list, keeps the old list as a prefix and adds nothing else |
| Playlists.WithoutTrack | convex/playlists.ts:65-68 | removing takes out the track and keeps every other track |
| Playlists.AddKeepsDistinct | convex/playlists.ts:41-46 | adding never lists a track twice |
| Playlists.RemoveKeepsDistinct | convex/playlists.ts:65-68 | removing keeps the list free of repetitions |
| Playlists.RemoveAbsent | convex/playlists.ts:65-68 | removing an absent track leaves the list as it was |
| Playlists.RemoveKeepsOrder | convex/playlists.ts:65-68 | removing the track at position i leaves the list without that one position, in order |
| Playlists.RemoveUndoesAdd | convex/playlists.ts:41-68 | removing a newly added track restores the list |
| Playlists.AddedSpec | convex/playlists.ts:41-46 | an add changes only the track list and `updatedAt`; a row already holding the track is left as it was, so a second add changes nothing |
| Playlists.RemovedSpec | convex/playlists.ts:65-68 | a remove changes only the track list and `updatedAt`, and repeating it at the same time gives the same row |
| Playlists.GetUserPlaylists | convex/playlists.ts:73-84 | signed out gives nothing; signed in gives exactly the caller's playlists |
| Playlists.UserPlaylistsNewestFirst | convex/playlists.ts:78-82 | the caller's playlists come newest first |
| Playlists.GetPlaylistWithTracks | convex/playlists.ts:87-111 | none exactly for a missing playlist; otherwise the playlist with the tracks its ids still name, in list order |
| Playlists.PatchPreserves | convex/playlists.ts:41-68 | adding or removing a track keeps ids ordered, below the counter and free of repeated tracks |
| Playlists.PlaylistTable.constructor | convex/playlists.ts:6 | the table starts empty |
| Playlists.PlaylistTable.CreatePlaylist | convex/playlists.ts:6-24 | a signed-out caller changes nothing; otherwise one empty playlist of the caller with a fresh id is appended |
| Playlists.PlaylistTable.AddTrackToPlaylist | convex/playlists.ts:27-48 | it fails exactly when the access check fails and then changes nothing; otherwise only that playlist gets the add |
| Playlists.PlaylistTable.RemoveTrackFromPlaylist | convex/playlists.ts:51-70 | it fails exactly when the access check fails and then changes nothing; otherwise only that playlist gets the remove |
| Artists.LowerChar | convex/artists.ts:67 | lower-casing leaves no upper-case letter, keeps whitespace as whitespace and leaves other characters alone |
| Artists.Lower | convex/artists.ts:67 | a string is lower-cased character by character |
| Artists.SkipSpaces | convex/artists.ts:67 | the leading run of whitespace is exactly what is dropped |
| Artists.Dashed | convex/artists.ts:67 | `replace(/\s+/g, "-")` leaves no whitespace |
| Artists.DashedRun | convex/artists.ts:67 | a whole run of whitespace becomes one dash |
| Artists.Slug | convex/artists.ts:67 | a slug has no whitespace and no upper-case letter |
| Artists.SlugIdempotent | convex/artists.ts:67 | a slug is its own slug and its own lower-case form |
| Artists.GetArtistProfile | convex/artists.ts:52-60 | the profile of that user, and none exactly when the user has none |
| Artists.GetMyArtistProfile | convex/artists.ts:74-84 | signed out gives none; otherwise the caller's profile |
| Artists.GetArtistByName | convex/artists.ts:63-71 | the first profile, in table order, whose slug equals the lower-cased name, and none exactly when no slug matches |
| Artists.SlugLookupRoundTrip | convex/artists.ts:63-71 | looking up a profile's own slug finds a profile with that slug |
| Artists.SpacedNameNotFound | convex/artists.ts:66-69 | a name that contains whitespace never matches |
| Artists.GetTracksByArtist | convex/artists.ts:96-102 | each track the user uploaded, exactly as often as the table holds it, and no other track |
| Artists.TracksByArtistNewestFirst | convex/artists.ts:99-102 | in a table whose ids grow in creation order, the artist's tracks come latest-created first |
| Artists.Overlay | convex/artists.ts:35-39 | a supplied optional argument overwrites the stored field, and an absent one leaves it |
| Artists.PatchedSpec | convex/artists.ts:35-39 | a patch keeps id, owner and creation time, sets the name, the supplied fields and `updatedAt`; repeating it changes only `updatedAt` |
| Artists.UpsertPreserves | convex/artists.ts:27-47 | a save keeps one profile per user and distinct ids; it patches in place when a profile exists and adds one row otherwise |
| Artists.UpsertSaves | convex/artists.ts:27-47 | after a save the user has exactly one profile, with the saved name and time and the right id and creation time; other users' profiles are untouched |
| Artists.ArtistTable.constructor | convex/artists.ts:6 | the table starts empty |
| Artists.ArtistTable.CreateOrUpdateArtistProfile | convex/artists.ts:6-49 | a signed-out caller changes nothing; otherwise the table is the upsert's result, and a new id is returned exactly when the user had no profile |
| UndoRedo.Empty | src/hooks/useUndoRedo.ts:22-23 | the empty history satisfies the invariant for every size bound |
| UndoRedo.Applied | src/hooks/useUndoRedo.ts:135-136 | the exposed history is the actions up to the cursor, and its length is `historySize` |
| UndoRedo.LastAction | src/hooks/useUndoRedo.ts:121-124 | there is a last action exactly when undo is possible, and it is the action at the cursor |
| UndoRedo.NextAction | src/hooks/useUndoRedo.ts:121-124 | there is a next action exactly when redo is possible, and it is the action after the cursor |
| UndoRedo.AddSpec | src/hooks/useUndoRedo.ts:42-59 | adding keeps the invariant and puts the cursor on the new action with nothing to redo; the applied actions gain it, losing the oldest when full |
| UndoRedo.AddBounded | src/hooks/useUndoRedo.ts:48-50 | adding to a full history keeps its size at the bound |
| UndoRedo.UndoRedoInverse | src/hooks/useUndoRedo.ts:67-108 | undo and redo keep the actions and the invariant and are inverse to each other; without an action to undo or redo, each does nothing |
| UndoRedo.UndoTimesSpec | src/hooks/useUndoRedo.ts:67-86 | undoing k times moves the cursor down by k |
| UndoRedo.KeyCommand | src/hooks/useUndoRedo.ts:144-163 | nothing happens in input fields or without Ctrl/Cmd; Z undoes, and Y or Shift+Z redoes |
| UndoRedo.UndoRedoHistory.constructor | src/hooks/useUndoRedo.ts:19-24 | the history starts empty, and the bound defaults to 50 |
| UndoRedo.UndoRedoHistory.AddAction | src/hooks/useUndoRedo.ts:27-64 | the action counter goes up, the new action carries it, and the history becomes the add's result |
| UndoRedo.UndoRedoHistory.Undo | src/hooks/useUndoRedo.ts:67-86 | it invokes the last action if there is one, and moves the cursor only when the callback succeeds |
| UndoRedo.UndoRedoHistory.Redo | src/hooks/useUndoRedo.ts:89-108 | it invokes the next action if there is one, and moves the cursor only when the callback succeeds |
| UndoRedo.UndoRedoHistory.ClearHistory | src/hooks/useUndoRedo.ts:111-118 | the history is empty again, and the counter keeps its value |
| UndoRedo.UndoRedoHistory.HandleKeyDown | src/hooks/useUndoRedo.ts:141-170 | the chosen key command runs undo or redo, and any other key changes nothing |
| ColorExtraction.Quantize | src/utils/colorExtraction.ts:67-69 | a channel rounds down to a multiple of 32 within 32 of it |
| ColorExtraction.QuantizeIdempotent | src/utils/colorExtraction.ts:67-69 | quantising twice is quantising once |
| ColorExtraction.SampleInBounds | src/utils/colorExtraction.ts:57-64 | in a buffer of whole pixels, every sampled offset starts a whole pixel |
| ColorExtraction.SampleAt | src/utils/colorExtraction.ts:58-69 | a pixel is skipped exactly when its alpha is below 128; otherwise it gives its quantised colour |
| ColorExtraction.Samples | src/utils/colorExtraction.ts:57-81 | the sampled colours are quantised, at most one per sample |
| ColorExtraction.TallyCounts | src/utils/colorExtraction.ts:73-80 | the colour map counts exactly the sampled colours, one entry per colour |
| ColorExtraction.DominantColorsSpec | src/utils/colorExtraction.ts:53-88 | `DominantColors` gives at most five distinct sampled colours, by non-increasing frequency; a sampled colour left out is no more frequent than the fifth |
| ColorExtraction.ExtractDominantColors | src/utils/colorExtraction.ts:53-88 | the loop over the pixel array returns exactly the dominant colours |
| ColorExtraction.Vibrance | src/utils/colorExtraction.ts:121-125 | the vibrance is non-negative, 0 exactly for greys, and at most 255 |
| ColorExtraction.DarknessOrder | src/utils/colorExtraction.ts:188-190 | darkness orders colours exactly opposite to brightness |
| ColorExtraction.FirstBest | src/utils/colorExtraction.ts:102-106 | `reduce` with a strict comparison keeps the first colour of maximal score |
| ColorExtraction.Primary | src/utils/colorExtraction.ts:102-106 | the primary is a listed colour of maximal vibrance |
| ColorExtraction.Background | src/utils/colorExtraction.ts:162-169 | the background is a listed colour of minimal brightness |
| ColorExtraction.DistanceSymmetric | src/utils/colorExtraction.ts:192-197 | colour distance is symmetric and 0 from a colour to itself |
| ColorExtraction.SyntheticAccent | src/utils/colorExtraction.ts:155-159 | the synthetic accent stays in range and brightens every channel |
| ColorExtraction.Accent | src/utils/colorExtraction.ts:143-160 | the first listed colour farther than 50 from both primary and secondary, else the synthetic accent |
| ColorExtraction.FindAccentColor | src/utils/colorExtraction.ts:143-160 | the search loop returns exactly `Accent` |
| ColorExtraction.HexDigit | src/utils/colorExtraction.ts:199-206 | a digit becomes a lower-case hexadecimal character |
| ColorExtraction.ToHexString | src/utils/colorExtraction.ts:201 | `toString(16)` gives a non-empty string of lower-case hexadecimal digits |
| ColorExtraction.ToHexByte | src/utils/colorExtraction.ts:199-206 | a channel below 256 becomes exactly two digits, high one first |
| ColorExtraction.HexRoundTrip | src/utils/colorExtraction.ts:199-206 | `rgbToHex` gives `#` and six hexadecimal digits, and reading them back gives the colour |
| ColorExtraction.FallbackWellFormed | src/utils/colorExtraction.ts:91-98 | the fallback palette's four colours read back as the blue, violet, cyan and slate values it lists |
| ColorExtraction.PaletteSpec | src/utils/colorExtraction.ts:90-119 | the palette `CreateColorPalette` builds reads back as the most vibrant colour, the secondary, a listed or synthetic accent, and the darkest colour |
| ColorExtraction.ExtractedPaletteWellFormed | src/utils/colorExtraction.ts:53-119 | the palette built from extracted colours is always four well-formed colours |
| DeviceDetection.MatchesResolutionAt | src/hooks/useDeviceDetection.ts:48-51 | a size matches the list exactly when some listed resolution equals it in either orientation |
| DeviceDetection.MatchesResolutionSwap | src/hooks/useDeviceDetection.ts:48-51 | the list test is the same in both orientations |
| DeviceDetection.Classify | src/hooks/useDeviceDetection.ts:21-55 | mobile exactly for the mobile size test; otherwise tablet below 1024 wide and desktop from 1024 |
| DeviceDetection.MobileBand | src/hooks/useDeviceDetection.ts:23 | every width from 320 to 767 is mobile |
| DeviceDetection.ListedPhonesAreMobile | src/hooks/useDeviceDetection.ts:26-51 | every listed phone resolution is mobile in both orientations |
| DeviceDetection.LandscapeExactness | src/hooks/useDeviceDetection.ts:26-51 | a listed landscape size is mobile, but one pixel off it is not |
| DeviceDetection.NoListedHeight | src/hooks/useDeviceDetection.ts:48-51 | a height that no listed resolution uses never matches |
| DeviceDetection.ClassifyNotSymmetric | src/hooks/useDeviceDetection.ts:23-55 | classification depends on orientation: 500×1000 is mobile and 1000×500 is a tablet |
| DeviceDetection.DeviceDetector.constructor | src/hooks/useDeviceDetection.ts:16-62 | the initial info classifies the screen, reads a pixel ratio of 0 as 1 and starts out of low-power mode |
| DeviceDetection.DeviceDetector.Resize | src/hooks/useDeviceDetection.ts:66-110 | a resize updates only the type and the size |
| DeviceDetection.DeviceDetector.OnBattery | src/hooks/useDeviceDetection.ts:112-133 | a battery reading sets only low power, as charge below 20% or not charging |
| DeviceDetection.GlassIntensitySpec | src/hooks/useDeviceDetection.ts:146-155 | `GlassIntensity`: blur 20 for mobile in low power, 40 for other mobile, 30 for tablet, 25 for desktop; low power never blurs more and halves the blur only on mobile; animation is slow exactly in low power; only type and power matter |
| Gestures.Merge | src/hooks/useGestures.ts:35-48 | each configuration field is the supplied value or its default |
| Gestures.MergeFieldwise | src/hooks/useGestures.ts:48 | overriding one field changes only that field, and no overrides gives the defaults |
| Gestures.ExceedsIsDistance | src/hooks/useGestures.ts:67-75 | comparing the squared distance agrees with comparing the Euclidean distance |
| Gestures.Center | src/hooks/useGestures.ts:77-84 | the centre is the one touch, or the midpoint of the first two |
| Gestures.SwipeDirection | src/hooks/useGestures.ts:205-213 | horizontal exactly when the horizontal offset is strictly larger, with the sign choosing the side; ties count as vertical |
| Gestures.SwipeDirectionReversed | src/hooks/useGestures.ts:205-213 | reversing a non-zero offset reverses the direction |
| Gestures.SwipeCallback | src/hooks/useGestures.ts:214-219 | every direction reports one of the four swipe callbacks |
| Gestures.PinchStep | src/hooks/useGestures.ts:143-150 | a pinch is reported exactly when the scale moved more than the threshold, out when it grew; the last scale is updated only on a report |
| Gestures.PinchReportsOnce | src/hooks/useGestures.ts:143-150 | the same scale is not reported twice in a row |
| Gestures.Cancel | src/hooks/useGestures.ts:191-194 | `clearTimeout` removes exactly the timers with that id |
| Gestures.EndingOf | src/hooks/useGestures.ts:197-246 | a swipe ends as a swipe in its direction; a gesture that is neither a swipe nor a long press and lasted under 200 ms ends as a tap |
| Gestures.GestureRecognizer.constructor | src/hooks/useGestures.ts:35-65 | the recogniser starts idle with the merged configuration, no touch and no timers |
| Gestures.GestureRecognizer.TouchStart | src/hooks/useGestures.ts:86-122 | two touches start a pinch at the measured spread; any other count arms a long-press timer and overwrites the reference to the previous one |
| Gestures.GestureRecognizer.SetLongPressTimer | src/hooks/useGestures.ts:112-120 | one long-press timeout is added under the next handle and the handle overwrites the previous reference; when no long press was pending, the new one is the only one |
| Gestures.GestureRecognizer.TouchStartClearing | src/hooks/useGestures.ts:86-122 | the corrected touch start clears a pending long press before arming a new one, so at most one long-press timer is ever pending |
| Gestures.GestureRecognizer.TouchMove | src/hooks/useGestures.ts:124-182 | no start leaves everything alone; a two-finger move may report a pinch; a one-finger move becomes a swipe or pan, cancels the long press when it strays over 10 px, and reports the pan |
| Gestures.GestureRecognizer.MovePinch | src/hooks/useGestures.ts:130-150 | the scale is the spread over the initial spread, and the pinch callback and the remembered scale follow the pinch rule; the touch and the timers are untouched |
| Gestures.GestureRecognizer.MovePan | src/hooks/useGestures.ts:151-181 | the move is a swipe beyond the swipe threshold and a pan otherwise; beyond 10 px it clears the long press; the pan callback gets the step since the last touch, which then becomes the last touch |
| Gestures.GestureRecognizer.TouchEnd | src/hooks/useGestures.ts:184-265 | the long press is cleared; a swipe reports its direction, a short touch counts a tap or a double tap, and a reset timer is scheduled |
| Gestures.GestureRecognizer.ClearLongPress | src/hooks/useGestures.ts:191-194 | only the referenced long-press timer is cancelled |
| Gestures.CancelLongPress | src/hooks/useGestures.ts:191-194 | clearing the long-press handle's timeout keeps the timer bookkeeping, and when that handle named every pending long press none is left |
| Gestures.GestureRecognizer.CountTap | src/hooks/useGestures.ts:221-246 | a first tap arms the tap timer; a second tap within it reports a double tap and resets the count |
| Gestures.GestureRecognizer.ScheduleReset | src/hooks/useGestures.ts:249-264 | one reset timer is added, and the touch state is cleared |
| Gestures.GestureRecognizer.FireTimer | src/hooks/useGestures.ts:113-115 | the fired timer leaves the list; a long press reports itself, a tap timeout resets the count, and a reset restores the idle state and reports the end |
| Gestures.StrayLongPress | src/hooks/useGestures.ts:113-120 | as written, a touch, a three-finger touch and a touch end still let the first long press fire |
| Gestures.NoStrayLongPress | src/hooks/useGestures.ts:191-194 | with the corrected touch start, the same events leave no long press pending |
| SwipeNavigation.FindIndex | src/components/enhanced/MobileSwipeNavigation.tsx:33 | the first tab with the active id, or −1 exactly when there is none |
| SwipeNavigation.TabAfterDragEnd | src/components/enhanced/MobileSwipeNavigation.tsx:44-68 | a swipe goes to the previous tab exactly when dragged right with one before, and to the next exactly when dragged left with one after; it stays in bounds |
| SwipeNavigation.DragEndEdges | src/components/enhanced/MobileSwipeNavigation.tsx:49-61 | a zero offset never switches, and with no active tab a left swipe goes to the first tab |
| SwipeNavigation.SwipeBackReturns | src/components/enhanced/MobileSwipeNavigation.tsx:49-61 | swiping back the other way from the new tab returns to the old one |
| SwipeNavigation.Preview | src/components/enhanced/MobileSwipeNavigation.tsx:74-98 | the indicator shows a tab only while dragging more than 20 px |
| SwipeNavigation.PreviewAgreesWithRelease | src/components/enhanced/MobileSwipeNavigation.tsx:74-98 | past the swipe threshold, the indicator names the tab a release would switch to |
| SwipeNavigation.SwipeNavigator.constructor | src/components/enhanced/MobileSwipeNavigation.tsx:24-25 | the navigator starts not dragging, at offset 0 |
| SwipeNavigation.SwipeNavigator.DragStart | src/components/enhanced/MobileSwipeNavigation.tsx:36-38 | dragging starts, and the offset is kept |
| SwipeNavigation.SwipeNavigator.Drag | src/components/enhanced/MobileSwipeNavigation.tsx:40-42 | the offset follows the drag |
| SwipeNavigation.SwipeNavigator.DragEnd | src/components/enhanced/MobileSwipeNavigation.tsx:44-68 | the drag state resets, and the tab change is the id of the tab `TabAfterDragEnd` chooses |

## Left out

- Storage URLs (`ctx.storage.getUrl`) and uploader names joined onto query results: these are platform lookups, and the model returns the rows without them.
- getUserFeedback (convex/feedback.ts:223-262): a read-only per-user join with no property beyond a filter. It is not part of this model.
- getAllArtistProfiles (convex/artists.ts:87-93): it returns the table unchanged.
- GenerateUploadUrl: the URL comes from the storage service and is a parameter.
- Concurrency: each handler runs atomically on one snapshot of the tables, with one `now`.
- `Math.random()` in a generated session id is the `nonce` parameter.
- Timeframe labels such as "constructor" or "toString", which look up object prototype members in `timeframes`: the model gives every unknown label the 24h window.
- Negative or fractional `limit` and `offset` values: the model takes them as natural numbers.
- Floating-point arithmetic: scores, weights, averages and brightness are exact reals.
- findComplementaryColor, getLuminance and getContrast (src/utils/colorExtraction.ts:127-141, 171-186): these are floating-point luminance work. The secondary colour is an input of `CreateColorPalette`.
- extractColorsFromImage and applyColorPalette (src/utils/colorExtraction.ts:14-51, 208-213): canvas and DOM work.
- ColorExtraction.ExtractDominantColors: requires a buffer of whole RGBA pixels (length a multiple of 4), as canvas image data always is.
- A negative `maxHistorySize`: the bound is a natural number.
- Notifications, haptic feedback and `navigator.vibrate`: side effects without state.
- Battery API detection: a battery reading is an event of `OnBattery`.
- Touch support, pixel ratio and haptics support come from browser APIs and are constructor inputs.
- Artists.Lower: only the letters A–Z are lower-cased. Other Unicode case mappings are not modelled.
- An override given explicitly as `undefined` in the gesture configuration: an absent override is `None`.
- React stale closures and batched state updates: each handler sees the current state.
- FeedbackStore.FeedbackDb.ClearTimeframe: the delete loop is modelled as rebuilding the list without the timeframe's entries.
- FeedbackQueries.JoinTrending: a track without a stats row gets `None` instead of the all-zero object the query builds (convex/feedback.ts:317-324).
- Velocity in the gesture state (src/hooks/useGestures.ts:157, 169): it needs a square root, so the model's state has no velocity. `velocityThreshold` is configured but never read.
- Gestures.GestureRecognizer.TouchMove: it stores the squared swipe distance, because the distance itself needs a square root.
- Timers fire in any order the caller chooses, not by deadline.
- SwipeNavigation: the mobile-only gate (src/components/enhanced/MobileSwipeNavigation.tsx:29) and the rendering are not modelled.
- Gestures.GestureRecognizer.TouchStart and TouchMove require at least one touch, as every browser touch start and touch move event carries.

## Findings

| source | as written | input that shows it | evidently intended | confidence | as-written member | corrected member |
|---|---|---|---|---|---|---|
| src/hooks/useGestures.ts:113 | touchstart stores a new long-press timeout in `longPressTimerRef` without clearing the pending one, so touchend (lines 191-194) clears only the latest | one-finger touchstart, then a three-finger touchstart, then touchend: the first timeout still fires `onLongPress` after the touch has ended | clear any pending long-press timeout before arming a new one, so that touchend silences every long press | medium, not executed | Gestures.StrayLongPress | Gestures.GestureRecognizer.TouchStartClearing, with Gestures.NoStrayLongPress |
