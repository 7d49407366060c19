/** The `tracks` table: uploading a track, listing tracks, deleting one's
    own track. Storage URLs and uploader names are joined onto query results
    by the platform and are not part of this model. */
module Tracks {
  import opened Common
  import opened Sorting

  /** A row of the `tracks` table. `genre`, `audioQuality` and
      `allowDownload` are part of the schema but never set by `createTrack`. */
  datatype Track = Track(
    id: TrackId,
    title: string,
    artist: string,
    duration: real,
    audioFileId: StorageId,
    coverArtId: Option<StorageId>,
    uploadedBy: UserId,
    uploadedAt: int,
    genre: Option<string>,
    audioQuality: Option<string>,
    allowDownload: Option<bool>)

  datatype TrackError = NotAuthenticated | TrackNotFound | NotAuthorized

  /** `generateUploadUrl`: only a signed-in caller obtains the URL that
      the storage service issues. */
  function GenerateUploadUrl(caller: Option<UserId>, issued: string): (r: Result<string, TrackError>)
    ensures r.Err? <==> caller.None?
    ensures r.Err? ==> r.error == NotAuthenticated
    ensures r.Ok? ==> r.value == issued
  {
    if caller.None? then Err(NotAuthenticated) else Ok(issued)
  }

  /** `ctx.db.get(id)` on the tracks table. */
  function FindTrack(tracks: seq<Track>, id: TrackId): (r: Option<Track>)
    ensures r.Some? ==> r.value in tracks && r.value.id == id
    ensures r.None? <==> forall i :: 0 <= i < |tracks| ==> tracks[i].id != id
  {
    if tracks == [] then None
    else if tracks[0].id == id then Some(tracks[0])
    else FindTrack(tracks[1..], id)
  }

  function IdPresent(tracks: seq<Track>): TrackId -> bool {
    (id: TrackId) => FindTrack(tracks, id).Some?
  }

  /** `ids.map(id => ctx.db.get(id))` followed by `filter(Boolean)`: the
      tracks of the ids that still exist, in the order of `ids`. */
  function Resolve(ids: seq<TrackId>, tracks: seq<Track>): (r: seq<Track>)
    ensures var kept := Filter(ids, IdPresent(tracks));
      && |r| == |kept|
      && forall i :: 0 <= i < |r| ==> r[i].id == kept[i] && Some(r[i]) == FindTrack(tracks, kept[i])
  {
    var kept := Filter(ids, IdPresent(tracks));
    seq(|kept|, i requires 0 <= i < |kept| => FindTrack(tracks, kept[i]).value)
  }

  /** When every id names an existing track, nothing is dropped: the
      result lists exactly the tracks of `ids`, position by position. */
  lemma ResolveAllPresent(ids: seq<TrackId>, tracks: seq<Track>)
    requires forall i :: 0 <= i < |ids| ==> FindTrack(tracks, ids[i]).Some?
    ensures var r := Resolve(ids, tracks);
      |r| == |ids| && forall i :: 0 <= i < |r| ==> r[i].id == ids[i] && r[i] in tracks
  {
    FilterAll(ids, IdPresent(tracks));
  }

  predicate UploadedBy(t: Track, u: UserId) {
    t.uploadedBy == u
  }

  function ByUploader(u: UserId): Track -> bool {
    (t: Track) => UploadedBy(t, u)
  }

  function TrackKey(t: Track): int {
    t.id
  }

  /** Row ids grow in creation order, so a larger id is a later row. */
  predicate IdsIncreasing(rows: seq<Track>) {
    IncreasingBy(rows, TrackKey)
  }

  /** `getAllTracks`: every track, newest upload first (the `by_uploaded_at`
      index read in descending order; equal times come latest-created first). */
  function GetAllTracks(tracks: seq<Track>): (r: seq<Track>)
    ensures NonIncreasing(r, (t: Track) => t.uploadedAt as real)
    ensures multiset(r) == multiset(tracks)
  {
    assert multiset(Reverse(tracks)) == multiset(tracks) by {
      ReversePermutation(tracks);
    }
    SortDesc(Reverse(tracks), (t: Track) => t.uploadedAt as real)
  }

  /** `getUserTracks`: nothing for a signed-out caller, otherwise the
      caller's uploads, each as often as it is stored (`by_user` read in
      descending order; `UserTracksNewestFirst` states the order). */
  function GetUserTracks(caller: Option<UserId>, tracks: seq<Track>): (r: seq<Track>)
    ensures caller.None? ==> r == []
    ensures caller.Some? ==> forall t :: t in r <==> t in tracks && t.uploadedBy == caller.value
    ensures caller.Some? ==> forall t ::
      multiset(r)[t] == if t.uploadedBy == caller.value then multiset(tracks)[t] else 0
    ensures caller.Some? ==> |r| <= |tracks|
  {
    if caller.None? then []
    else
      var mine := Filter(tracks, ByUploader(caller.value));
      assert forall t :: multiset(Reverse(mine))[t] == if t.uploadedBy == caller.value then multiset(tracks)[t] else 0 by {
        ReversePermutation(mine);
        forall t ensures multiset(mine)[t] == if t.uploadedBy == caller.value then multiset(tracks)[t] else 0 {
          FilterMultiset(tracks, ByUploader(caller.value), t);
        }
      }
      assert forall t :: t in Reverse(mine) <==> t in multiset(Reverse(mine));
      assert forall t :: t in tracks <==> t in multiset(tracks);
      Reverse(mine)
  }

  /** In a table whose ids grow in creation order, the caller's tracks come
      latest-created first. */
  lemma UserTracksNewestFirst(caller: Option<UserId>, tracks: seq<Track>)
    requires IdsIncreasing(tracks)
    ensures var r := GetUserTracks(caller, tracks);
      forall i, j :: 0 <= i < j < |r| ==> r[i].id > r[j].id
  {
    if caller.Some? {
      var mine := Filter(tracks, ByUploader(caller.value));
      FilterIncreasing(tracks, ByUploader(caller.value), TrackKey);
      ReverseDecreasing(mine, TrackKey);
    }
  }

  /** The guards of `deleteTrack`, in the order the handler checks them:
      signed in, then the track exists, then the caller uploaded it. */
  function DeleteCheck(tracks: seq<Track>, caller: Option<UserId>, id: TrackId): (r: Result<Unit, TrackError>)
    ensures caller.None? ==> r == Err(NotAuthenticated)
    ensures caller.Some? && FindTrack(tracks, id).None? ==> r == Err(TrackNotFound)
    ensures caller.Some? && FindTrack(tracks, id).Some? ==>
      (r.Ok? <==> FindTrack(tracks, id).value.uploadedBy == caller.value)
    ensures r.Err? && caller.Some? && FindTrack(tracks, id).Some? ==> r.error == NotAuthorized
  {
    if caller.None? then Err(NotAuthenticated)
    else match FindTrack(tracks, id)
      case None => Err(TrackNotFound)
      case Some(t) => if t.uploadedBy != caller.value then Err(NotAuthorized) else Ok(Unit)
  }

  predicate HasId(t: Track, id: TrackId) {
    t.id == id
  }

  predicate DistinctIds(tracks: seq<Track>) {
    forall i, j :: 0 <= i < j < |tracks| ==> tracks[i].id != tracks[j].id
  }

  function OtherThan(id: TrackId): Track -> bool {
    (t: Track) => !HasId(t, id)
  }

  /** The table after `ctx.db.delete(id)`. */
  function RemoveTrack(tracks: seq<Track>, id: TrackId): seq<Track> {
    Filter(tracks, OtherThan(id))
  }

  /** With distinct ids, deleting the row at position `i` removes exactly
      that row and keeps every other row, in order. */
  lemma RemoveExactlyOne(tracks: seq<Track>, i: nat)
    requires DistinctIds(tracks) && i < |tracks|
    ensures RemoveTrack(tracks, tracks[i].id) == tracks[..i] + tracks[i + 1..]
  {
    FilterRemovesOne(tracks, i, OtherThan(tracks[i].id));
  }

  class TrackTable {
    var rows: seq<Track>
    var nextId: nat

    ghost predicate Valid()
      reads this
    {
      DistinctIds(rows) && IdsIncreasing(rows) && forall i :: 0 <= i < |rows| ==> rows[i].id < nextId
    }

    constructor ()
      ensures Valid() && rows == []
    {
      rows := [];
      nextId := 0;
    }

    /** `createTrack`: a signed-in caller adds a row holding the given
        metadata, owned by the caller and stamped with the current time. */
    method CreateTrack(caller: Option<UserId>, title: string, artist: string, duration: real,
                       audioFileId: StorageId, coverArtId: Option<StorageId>, now: int)
      returns (r: Result<TrackId, TrackError>)
      requires Valid()
      modifies this
      ensures Valid()
      ensures caller.None? ==> r == Err(NotAuthenticated) && rows == old(rows)
      ensures caller.Some? ==>
                r.Ok? && FindTrack(old(rows), r.value).None? &&
                rows == old(rows) + [Track(r.value, title, artist, duration, audioFileId, coverArtId,
                                           caller.value, now, None, None, None)]
    {
      if caller.None? {
        return Err(NotAuthenticated);
      }
      var id := nextId;
      rows := rows + [Track(id, title, artist, duration, audioFileId, coverArtId,
                            caller.value, now, None, None, None)];
      nextId := nextId + 1;
      r := Ok(id);
    }

    /** `deleteTrack`: the guards of `DeleteCheck`, then removal of exactly
        that row. Feedback rows of the track live in another table and are
        left as they are. */
    method DeleteTrack(caller: Option<UserId>, id: TrackId) returns (r: Result<Unit, TrackError>)
      requires Valid()
      modifies this
      ensures Valid()
      ensures r == DeleteCheck(old(rows), caller, id)
      ensures r.Err? ==> rows == old(rows)
      ensures r.Ok? ==> exists i :: 0 <= i < |old(rows)| && old(rows)[i].id == id &&
                                     rows == old(rows)[..i] + old(rows)[i + 1..]
      ensures r.Ok? ==> rows == RemoveTrack(old(rows), id)
    {
      r := DeleteCheck(rows, caller, id);
      if r.Ok? {
        var i := IndexOf(id);
        RemoveExactlyOne(rows, i);
        FilterIncreasing(rows, OtherThan(id), TrackKey);
        rows := rows[..i] + rows[i + 1..];
      }
    }

    method IndexOf(id: TrackId) returns (i: nat)
      requires FindTrack(rows, id).Some?
      ensures i < |rows| && rows[i].id == id
    {
      i := 0;
      while rows[i].id != id
        invariant i < |rows|
        invariant forall k :: 0 <= k < i ==> rows[k].id != id
        decreases |rows| - i
      {
        i := i + 1;
      }
    }
  }
}
