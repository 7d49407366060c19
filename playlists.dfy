/** The `userPlaylists` table (convex/playlists.ts): a signed-in user's
    playlists, each an ordered list of track ids that only its owner may
    change. */
module Playlists {
  import opened Common
  import Tracks

  type PlaylistId = nat

  /** A row of the `userPlaylists` table. */
  datatype Playlist = Playlist(
    id: PlaylistId,
    name: string,
    description: Option<string>,
    isPublic: bool,
    userId: UserId,
    trackIds: seq<TrackId>,
    createdAt: int,
    updatedAt: int)

  datatype PlaylistError = NotAuthenticated | NotFoundOrDenied

  function WithId(id: PlaylistId): Playlist -> bool {
    (p: Playlist) => p.id == id
  }

  /** `ctx.db.get(playlistId)`: the position of the row with that id. */
  function FindPlaylist(rows: seq<Playlist>, id: PlaylistId): Option<nat> {
    FirstWhere(rows, WithId(id))
  }

  /** The guards shared by add and remove: signed in, then the playlist
      exists and belongs to the caller. On success, the row's position. */
  function AccessCheck(rows: seq<Playlist>, caller: Option<UserId>, id: PlaylistId): (r: Result<nat, PlaylistError>)
    ensures caller.None? ==> r == Err(NotAuthenticated)
    ensures caller.Some? ==>
      (r.Ok? <==> FindPlaylist(rows, id).Some? && rows[FindPlaylist(rows, id).value].userId == caller.value)
    ensures caller.Some? && r.Err? ==> r.error == NotFoundOrDenied
    ensures r.Ok? ==> r.value < |rows| && rows[r.value].id == id && caller == Some(rows[r.value].userId)
  {
    if caller.None? then Err(NotAuthenticated)
    else match FindPlaylist(rows, id)
      case None => Err(NotFoundOrDenied)
      case Some(k) => if rows[k].userId != caller.value then Err(NotFoundOrDenied) else Ok(k)
  }

  /** The track list after an add: `trackId` at the end unless already there. */
  function WithTrack(ids: seq<TrackId>, t: TrackId): (r: seq<TrackId>)
    ensures t in r && forall x :: x in r <==> x in ids || x == t
    ensures |ids| <= |r| && r[..|ids|] == ids
  {
    if t in ids then ids else ids + [t]
  }

  function OtherTrack(t: TrackId): TrackId -> bool {
    (x: TrackId) => x != t
  }

  /** The track list after a remove: every occurrence of `t` is gone and the
      other ids stay. */
  function WithoutTrack(ids: seq<TrackId>, t: TrackId): (r: seq<TrackId>)
    ensures t !in r && forall x :: x != t ==> (x in r <==> x in ids)
    ensures |r| <= |ids|
  {
    Filter(ids, OtherTrack(t))
  }

  /** A duplicate-free list stays duplicate-free after an add. */
  lemma AddKeepsDistinct(ids: seq<TrackId>, t: TrackId)
    requires Distinct(ids)
    ensures Distinct(WithTrack(ids, t))
  {
    if t !in ids {
      var r := ids + [t];
      forall i, j | 0 <= i < j < |r| ensures r[i] != r[j] {
        if j == |ids| {
          assert r[i] == ids[i];
        }
      }
    }
  }

  lemma RemoveKeepsDistinct(ids: seq<TrackId>, t: TrackId)
    requires Distinct(ids)
    ensures Distinct(WithoutTrack(ids, t))
  {
    FilterDistinct(ids, OtherTrack(t));
  }

  /** Removing a track that is not there changes nothing. */
  lemma RemoveAbsent(ids: seq<TrackId>, t: TrackId)
    requires t !in ids
    ensures WithoutTrack(ids, t) == ids
  {
    FilterAll(ids, OtherTrack(t));
  }

  /** Removing keeps the others in their order: in a duplicate-free list,
      exactly the position of `t` goes. */
  lemma RemoveKeepsOrder(ids: seq<TrackId>, i: nat)
    requires Distinct(ids) && i < |ids|
    ensures WithoutTrack(ids, ids[i]) == ids[..i] + ids[i + 1..]
  {
    FilterRemovesOne(ids, i, OtherTrack(ids[i]));
  }

  /** Removing a track just added gives the list back. */
  lemma RemoveUndoesAdd(ids: seq<TrackId>, t: TrackId)
    requires t !in ids
    ensures WithoutTrack(WithTrack(ids, t), t) == ids
  {
    FilterSnoc(ids, t, OtherTrack(t));
    RemoveAbsent(ids, t);
  }

  /** The row after `addTrackToPlaylist`: patched only when the track is
      new to it. */
  function Added(p: Playlist, t: TrackId, now: int): Playlist {
    if t in p.trackIds then p else p.(trackIds := p.trackIds + [t], updatedAt := now)
  }

  /** The row after `removeTrackFromPlaylist`: always patched. */
  function Removed(p: Playlist, t: TrackId, now: int): Playlist {
    p.(trackIds := WithoutTrack(p.trackIds, t), updatedAt := now)
  }

  /** An add changes only the track list and `updatedAt`; it leaves a row
      that already holds the track exactly as it was, so a second add, at
      any time, changes nothing. */
  lemma AddedSpec(p: Playlist, t: TrackId, now: int, later: int)
    ensures var q := Added(p, t, now);
      && q.trackIds == WithTrack(p.trackIds, t)
      && q.(trackIds := p.trackIds, updatedAt := p.updatedAt) == p
      && (t in p.trackIds ==> q == p)
      && (t !in p.trackIds ==> q.updatedAt == now)
      && Added(q, t, later) == q
  {
  }

  /** A remove changes only the track list and `updatedAt`, and a second
      remove at the same time gives the same row. */
  lemma RemovedSpec(p: Playlist, t: TrackId, now: int)
    ensures var q := Removed(p, t, now);
      && q.(trackIds := p.trackIds, updatedAt := p.updatedAt) == p
      && q.updatedAt == now
      && Removed(q, t, now) == q
  {
    RemoveAbsent(WithoutTrack(p.trackIds, t), t);
  }

  function OwnedBy(u: UserId): Playlist -> bool {
    (p: Playlist) => p.userId == u
  }

  /** Row ids grow in creation order. */
  predicate IdsIncreasing(rows: seq<Playlist>) {
    IncreasingBy(rows, PlaylistKey)
  }

  function PlaylistKey(p: Playlist): int {
    p.id
  }

  /** `getUserPlaylists`: nothing for a signed-out caller, otherwise the
      caller's playlists, newest first. */
  function GetUserPlaylists(caller: Option<UserId>, rows: seq<Playlist>): (r: seq<Playlist>)
    ensures caller.None? ==> r == []
    ensures caller.Some? ==> forall p :: p in r <==> p in rows && p.userId == caller.value
  {
    if caller.None? then []
    else
      var mine := Filter(rows, OwnedBy(caller.value));
      assert forall p :: p in Reverse(mine) <==> p in mine by {
        forall p ensures p in Reverse(mine) <==> p in mine {
          if p in mine {
            var i :| 0 <= i < |mine| && mine[i] == p;
            assert Reverse(mine)[|mine| - 1 - i] == p;
          }
        }
      }
      Reverse(mine)
  }

  /** In a table whose ids grow in creation order, the playlists come
      newest first. */
  lemma UserPlaylistsNewestFirst(caller: Option<UserId>, rows: seq<Playlist>)
    requires IdsIncreasing(rows)
    ensures var r := GetUserPlaylists(caller, rows);
      forall i, j :: 0 <= i < j < |r| ==> r[i].id > r[j].id
  {
    if caller.Some? {
      var mine := Filter(rows, OwnedBy(caller.value));
      FilterIncreasing(rows, OwnedBy(caller.value), PlaylistKey);
      ReverseDecreasing(mine, PlaylistKey);
    }
  }

  /** A playlist together with its tracks. */
  datatype PlaylistWithTracks = PlaylistWithTracks(playlist: Playlist, tracks: seq<Tracks.Track>)

  /** `getPlaylistWithTracks`: nothing for a missing playlist; otherwise the
      playlist with the tracks its ids still name, in list order. It checks
      neither the caller nor `isPublic`. */
  function GetPlaylistWithTracks(rows: seq<Playlist>, tracks: seq<Tracks.Track>, id: PlaylistId): (r: Option<PlaylistWithTracks>)
    ensures r.None? <==> forall i :: 0 <= i < |rows| ==> rows[i].id != id
    ensures r.Some? ==>
      && r.value.playlist in rows && r.value.playlist.id == id
      && var kept := Filter(r.value.playlist.trackIds, Tracks.IdPresent(tracks));
         |r.value.tracks| == |kept| &&
         forall i :: 0 <= i < |r.value.tracks| ==>
           r.value.tracks[i].id == kept[i] && Some(r.value.tracks[i]) == Tracks.FindTrack(tracks, kept[i])
  {
    match FindPlaylist(rows, id)
    case None => None
    case Some(k) => Some(PlaylistWithTracks(rows[k], Tracks.Resolve(rows[k].trackIds, tracks)))
  }

  /** The table invariant: ids grow in creation order, stay below the next
      id, and no playlist lists a track twice. */
  predicate Table(rows: seq<Playlist>, nextId: nat) {
    && IdsIncreasing(rows)
    && (forall i :: 0 <= i < |rows| ==> rows[i].id < nextId)
    && (forall i :: 0 <= i < |rows| ==> Distinct(rows[i].trackIds))
  }

  /** Adding or removing a track at a checked position keeps the table
      invariant. */
  lemma PatchPreserves(rows: seq<Playlist>, nextId: nat, k: nat, t: TrackId, now: int)
    requires Table(rows, nextId) && k < |rows|
    ensures Table(rows[k := Added(rows[k], t, now)], nextId)
    ensures Table(rows[k := Removed(rows[k], t, now)], nextId)
  {
    AddKeepsDistinct(rows[k].trackIds, t);
    RemoveKeepsDistinct(rows[k].trackIds, t);
  }

  class PlaylistTable {
    var rows: seq<Playlist>
    var nextId: nat

    ghost predicate Valid()
      reads this
    {
      Table(rows, nextId)
    }

    constructor ()
      ensures Valid() && rows == []
    {
      rows := [];
      nextId := 0;
    }

    /** `createPlaylist`: a signed-in caller adds an empty playlist owned by
        the caller, stamped with the current time. */
    method CreatePlaylist(caller: Option<UserId>, name: string, description: Option<string>, isPublic: bool, now: int)
      returns (r: Result<PlaylistId, PlaylistError>)
      requires Valid()
      modifies this
      ensures Valid()
      ensures caller.None? ==> r == Err(NotAuthenticated) && rows == old(rows)
      ensures caller.Some? ==>
                r.Ok? && FindPlaylist(old(rows), r.value).None? &&
                rows == old(rows) + [Playlist(r.value, name, description, isPublic, caller.value, [], now, now)]
    {
      if caller.None? {
        return Err(NotAuthenticated);
      }
      var id := nextId;
      rows := rows + [Playlist(id, name, description, isPublic, caller.value, [], now, now)];
      nextId := nextId + 1;
      r := Ok(id);
    }

    /** `addTrackToPlaylist`: after the guards, the track goes at the end of
        the list unless it is already there. */
    method AddTrackToPlaylist(caller: Option<UserId>, playlistId: PlaylistId, trackId: TrackId, now: int)
      returns (r: Result<Unit, PlaylistError>)
      requires Valid()
      modifies this
      ensures Valid() && nextId == old(nextId)
      ensures r.Err? <==> AccessCheck(old(rows), caller, playlistId).Err?
      ensures r.Err? ==> r.error == AccessCheck(old(rows), caller, playlistId).error && rows == old(rows)
      ensures r.Ok? ==>
                var k := AccessCheck(old(rows), caller, playlistId).value;
                rows == old(rows)[k := Added(old(rows)[k], trackId, now)]
    {
      var check := AccessCheck(rows, caller, playlistId);
      if check.Err? {
        return Err(check.error);
      }
      var k := check.value;
      PatchPreserves(rows, nextId, k, trackId, now);
      var playlist := rows[k];
      if trackId !in playlist.trackIds {
        rows := rows[k := playlist.(trackIds := playlist.trackIds + [trackId], updatedAt := now)];
      }
      r := Ok(Unit);
    }

    /** `removeTrackFromPlaylist`: after the guards, every occurrence of the
        track leaves the list. */
    method RemoveTrackFromPlaylist(caller: Option<UserId>, playlistId: PlaylistId, trackId: TrackId, now: int)
      returns (r: Result<Unit, PlaylistError>)
      requires Valid()
      modifies this
      ensures Valid() && nextId == old(nextId)
      ensures r.Err? <==> AccessCheck(old(rows), caller, playlistId).Err?
      ensures r.Err? ==> r.error == AccessCheck(old(rows), caller, playlistId).error && rows == old(rows)
      ensures r.Ok? ==>
                var k := AccessCheck(old(rows), caller, playlistId).value;
                rows == old(rows)[k := Removed(old(rows)[k], trackId, now)]
    {
      var check := AccessCheck(rows, caller, playlistId);
      if check.Err? {
        return Err(check.error);
      }
      var k := check.value;
      PatchPreserves(rows, nextId, k, trackId, now);
      rows := rows[k := rows[k].(trackIds := WithoutTrack(rows[k].trackIds, trackId), updatedAt := now)];
      r := Ok(Unit);
    }
  }
}
