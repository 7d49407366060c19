/** The `artistProfiles` table (convex/artists.ts): one profile per
    signed-in user, created on first save and patched afterwards, and the
    lookups by owner and by the URL slug of the display name. */
module Artists {
  import opened Common
  import Tracks

  type ProfileId = nat

  datatype SocialLinks = SocialLinks(
    spotify: Option<string>,
    bandcamp: Option<string>,
    soundcloud: Option<string>,
    youtube: Option<string>)

  datatype CustomColors = CustomColors(primary: string, secondary: string, accent: string)

  /** A row of the `artistProfiles` table. */
  datatype ArtistProfile = ArtistProfile(
    id: ProfileId,
    userId: UserId,
    displayName: string,
    bio: Option<string>,
    genre: Option<string>,
    website: Option<string>,
    profileImageId: Option<StorageId>,
    bannerImageId: Option<StorageId>,
    socialLinks: Option<SocialLinks>,
    customColors: Option<CustomColors>,
    createdAt: int,
    updatedAt: int)

  /** The arguments of `createOrUpdateArtistProfile`; an absent optional
      argument is a key the call does not carry. */
  datatype ProfileArgs = ProfileArgs(
    displayName: string,
    bio: Option<string>,
    genre: Option<string>,
    website: Option<string>,
    profileImageId: Option<StorageId>,
    bannerImageId: Option<StorageId>,
    socialLinks: Option<SocialLinks>,
    customColors: Option<CustomColors>)

  datatype ArtistError = NotAuthenticated

  // ---------------------------------------------------------------------
  // Slugs

  /** A character that `\s` matches in a JavaScript regular expression. */
  predicate IsSpace(c: char) {
    var n := c as int;
    n == 0x20 || 0x09 <= n <= 0x0D || n == 0xA0 || n == 0x1680 || 0x2000 <= n <= 0x200A ||
    n == 0x2028 || n == 0x2029 || n == 0x202F || n == 0x205F || n == 0x3000 || n == 0xFEFF
  }

  predicate IsUpper(c: char) {
    'A' <= c <= 'Z'
  }

  /** `toLowerCase` on one character, for the Latin letters A to Z. */
  function LowerChar(c: char): (r: char)
    ensures !IsUpper(r)
    ensures IsSpace(r) <==> IsSpace(c)
    ensures !IsUpper(c) ==> r == c
  {
    if IsUpper(c) then (c as int + 32) as char else c
  }

  function Lower(s: string): (r: string)
    ensures |r| == |s|
    ensures forall i :: 0 <= i < |s| ==> r[i] == LowerChar(s[i])
  {
    seq(|s|, i requires 0 <= i < |s| => LowerChar(s[i]))
  }

  /** `s` without its leading whitespace. */
  function SkipSpaces(s: string): (r: string)
    ensures |r| <= |s| && r == s[|s| - |r|..]
    ensures r == [] || !IsSpace(r[0])
    ensures forall i :: 0 <= i < |s| - |r| ==> IsSpace(s[i])
  {
    if s != [] && IsSpace(s[0]) then
      var rest := SkipSpaces(s[1..]);
      assert s[1..][|s| - 1 - |rest|..] == s[|s| - |rest|..];
      assert forall i :: 1 <= i < |s| - |rest| ==> s[i] == s[1..][i - 1];
      rest
    else s
  }

  /** `replace(/\s+/g, '-')`: each maximal run of whitespace becomes one `-`. */
  function Dashed(s: string): (r: string)
    ensures forall i :: 0 <= i < |r| ==> !IsSpace(r[i])
    decreases |s|
  {
    if s == [] then []
    else if IsSpace(s[0]) then "-" + Dashed(SkipSpaces(s[1..]))
    else [s[0]] + Dashed(s[1..])
  }

  /** Dashing adds no capital letter. */
  lemma {:induction false} DashedLower(s: string)
    requires forall i :: 0 <= i < |s| ==> !IsUpper(s[i])
    ensures forall i :: 0 <= i < |Dashed(s)| ==> !IsUpper(Dashed(s)[i])
    decreases |s|
  {
    if s != [] {
      if IsSpace(s[0]) {
        var rest := SkipSpaces(s[1..]);
        assert rest == s[|s| - |rest|..];
        DashedLower(rest);
      } else {
        DashedLower(s[1..]);
      }
    }
  }

  /** A run of whitespace up to a non-space character (or the end) becomes
      exactly one `-`. */
  lemma DashedRun(run: string, t: string)
    requires run != [] && forall i :: 0 <= i < |run| ==> IsSpace(run[i])
    requires t == [] || !IsSpace(t[0])
    ensures Dashed(run + t) == "-" + Dashed(t)
  {
    assert (run + t)[0] == run[0];
    assert (run + t)[1..] == run[1..] + t;
    SkipRun(run[1..], t);
  }

  lemma {:induction false} SkipRun(run: string, t: string)
    requires forall i :: 0 <= i < |run| ==> IsSpace(run[i])
    requires t == [] || !IsSpace(t[0])
    ensures SkipSpaces(run + t) == t
  {
    if run == [] {
      assert run + t == t;
    } else {
      assert (run + t)[0] == run[0];
      assert (run + t)[1..] == run[1..] + t;
      SkipRun(run[1..], t);
    }
  }

  /** Any other character is kept as it is. */
  lemma DashedKeeps(c: char, t: string)
    requires !IsSpace(c)
    ensures Dashed([c] + t) == [c] + Dashed(t)
  {
    assert ([c] + t)[1..] == t;
  }

  /** The URL slug of a display name, as both the lookup and the artists
      list build it: lower case, with no whitespace left. */
  function Slug(name: string): (r: string)
    ensures forall i :: 0 <= i < |r| ==> !IsSpace(r[i]) && !IsUpper(r[i])
  {
    DashedLower(Lower(name));
    Dashed(Lower(name))
  }

  lemma {:induction false} DashedNoSpaces(s: string)
    requires forall i :: 0 <= i < |s| ==> !IsSpace(s[i])
    ensures Dashed(s) == s
    decreases |s|
  {
    if s != [] {
      DashedNoSpaces(s[1..]);
    }
  }

  lemma LowerNoUpper(s: string)
    requires forall i :: 0 <= i < |s| ==> !IsUpper(s[i])
    ensures Lower(s) == s
  {
  }

  /** A slug is its own slug: it is lower case, and it has no whitespace. */
  lemma SlugIdempotent(name: string)
    ensures Lower(Slug(name)) == Slug(name)
    ensures Slug(Slug(name)) == Slug(name)
  {
    LowerNoUpper(Slug(name));
    DashedNoSpaces(Slug(name));
  }

  // ---------------------------------------------------------------------
  // Lookups

  function OfUser(u: UserId): ArtistProfile -> bool {
    (p: ArtistProfile) => p.userId == u
  }

  function SlugIs(slug: string): ArtistProfile -> bool {
    (p: ArtistProfile) => Slug(p.displayName) == slug
  }

  /** `getArtistProfile`: the first profile of the user, if any. */
  function GetArtistProfile(rows: seq<ArtistProfile>, u: UserId): (r: Option<ArtistProfile>)
    ensures r.Some? ==> r.value in rows && r.value.userId == u
    ensures r.None? <==> forall i :: 0 <= i < |rows| ==> rows[i].userId != u
  {
    match FirstWhere(rows, OfUser(u))
    case None => None
    case Some(k) => Some(rows[k])
  }

  /** `getMyArtistProfile`: nothing for a signed-out caller, otherwise the
      caller's profile. */
  function GetMyArtistProfile(rows: seq<ArtistProfile>, caller: Option<UserId>): (r: Option<ArtistProfile>)
    ensures caller.None? ==> r.None?
    ensures caller.Some? ==> r == GetArtistProfile(rows, caller.value)
  {
    if caller.None? then None else GetArtistProfile(rows, caller.value)
  }

  /** `getArtistByName`: the first profile, in table order, whose slug is
      the lower-cased argument. */
  function GetArtistByName(rows: seq<ArtistProfile>, name: string): (r: Option<ArtistProfile>)
    ensures r.Some? ==> r.value in rows && Slug(r.value.displayName) == Lower(name)
    ensures r.None? <==> forall i :: 0 <= i < |rows| ==> Slug(rows[i].displayName) != Lower(name)
    ensures r.Some? ==> exists k :: 0 <= k < |rows| && rows[k] == r.value &&
                                    forall j :: 0 <= j < k ==> Slug(rows[j].displayName) != Lower(name)
  {
    match FirstWhere(rows, SlugIs(Lower(name)))
    case None => None
    case Some(k) => Some(rows[k])
  }

  /** The link the artists list builds for a profile leads back to a
      profile with the same slug (the first one, when two names share it). */
  lemma SlugLookupRoundTrip(rows: seq<ArtistProfile>, p: ArtistProfile)
    requires p in rows
    ensures var r := GetArtistByName(rows, Slug(p.displayName));
      r.Some? && Slug(r.value.displayName) == Slug(p.displayName)
  {
    SlugIdempotent(p.displayName);
  }

  /** A name that still holds whitespace never matches: the lookup takes a
      slug, not a display name. */
  lemma SpacedNameNotFound(rows: seq<ArtistProfile>, name: string, i: nat)
    requires i < |name| && IsSpace(name[i])
    ensures GetArtistByName(rows, name).None?
  {
    assert IsSpace(Lower(name)[i]);
  }

  /** `getTracksByArtist`: the tracks the user uploaded, each as often as
      it is stored (`by_user` read in descending order;
      `TracksByArtistNewestFirst` states the order). */
  function GetTracksByArtist(tracks: seq<Tracks.Track>, u: UserId): (r: seq<Tracks.Track>)
    ensures forall t :: t in r <==> t in tracks && t.uploadedBy == u
    ensures forall t :: multiset(r)[t] == if t.uploadedBy == u then multiset(tracks)[t] else 0
  {
    Tracks.GetUserTracks(Some(u), tracks)
  }

  /** In a table whose ids grow in creation order, the artist's tracks come
      latest-created first. */
  lemma TracksByArtistNewestFirst(tracks: seq<Tracks.Track>, u: UserId)
    requires Tracks.IdsIncreasing(tracks)
    ensures var r := GetTracksByArtist(tracks, u);
      forall i, j :: 0 <= i < j < |r| ==> r[i].id > r[j].id
  {
    Tracks.UserTracksNewestFirst(Some(u), tracks);
  }

  // ---------------------------------------------------------------------
  // createOrUpdateArtistProfile

  /** A supplied optional argument overwrites the stored field; an absent one
      leaves it. */
  function Overlay<T>(stored: Option<T>, supplied: Option<T>): (r: Option<T>)
    ensures supplied.Some? ==> r == supplied
    ensures supplied.None? ==> r == stored
  {
    if supplied.Some? then supplied else stored
  }

  /** The row after `ctx.db.patch(existing._id, { ...args, updatedAt })`. */
  function Patched(p: ArtistProfile, args: ProfileArgs, now: int): ArtistProfile {
    p.(displayName := args.displayName, bio := Overlay(p.bio, args.bio), genre := Overlay(p.genre, args.genre),
       website := Overlay(p.website, args.website),
       profileImageId := Overlay(p.profileImageId, args.profileImageId),
       bannerImageId := Overlay(p.bannerImageId, args.bannerImageId),
       socialLinks := Overlay(p.socialLinks, args.socialLinks),
       customColors := Overlay(p.customColors, args.customColors),
       updatedAt := now)
  }

  /** The row that `ctx.db.insert` adds. */
  function NewProfile(id: ProfileId, u: UserId, args: ProfileArgs, now: int): ArtistProfile {
    ArtistProfile(id, u, args.displayName, args.bio, args.genre, args.website, args.profileImageId,
                  args.bannerImageId, args.socialLinks, args.customColors, now, now)
  }

  /** What a save stores, read back as arguments: the patch keeps the id,
      the owner and the creation time, refreshes `updatedAt`, takes the new
      display name and every supplied field; a patch with the same
      arguments again changes only `updatedAt`. */
  lemma PatchedSpec(p: ArtistProfile, args: ProfileArgs, now: int, later: int)
    ensures var q := Patched(p, args, now);
      && q.id == p.id && q.userId == p.userId && q.createdAt == p.createdAt && q.updatedAt == now
      && q.displayName == args.displayName
      && (args.bio.Some? ==> q.bio == args.bio) && (args.bio.None? ==> q.bio == p.bio)
      && (args.socialLinks.Some? ==> q.socialLinks == args.socialLinks)
      && (args.socialLinks.None? ==> q.socialLinks == p.socialLinks)
      && Patched(q, args, later) == q.(updatedAt := later)
  {
  }

  /** The profile table after a save by user `u`. */
  function Upserted(rows: seq<ArtistProfile>, nextId: ProfileId, u: UserId, args: ProfileArgs, now: int): seq<ArtistProfile> {
    match FirstWhere(rows, OfUser(u))
    case Some(k) => rows[k := Patched(rows[k], args, now)]
    case None => rows + [NewProfile(nextId, u, args, now)]
  }

  predicate OneProfilePerUser(rows: seq<ArtistProfile>) {
    forall i, j :: 0 <= i < j < |rows| ==> rows[i].userId != rows[j].userId
  }

  /** The table invariant: distinct ids below the next id, and at most one
      profile per user. */
  predicate Profiles(rows: seq<ArtistProfile>, nextId: ProfileId) {
    && (forall i, j :: 0 <= i < j < |rows| ==> rows[i].id != rows[j].id)
    && (forall i :: 0 <= i < |rows| ==> rows[i].id < nextId)
    && OneProfilePerUser(rows)
  }

  /** A save keeps one profile per user: it patches the user's profile in
      place when one exists, and adds one row otherwise. */
  lemma UpsertPreserves(rows: seq<ArtistProfile>, nextId: ProfileId, u: UserId, args: ProfileArgs, now: int)
    requires Profiles(rows, nextId)
    ensures var r := Upserted(rows, nextId, u, args, now);
      && Profiles(r, nextId + 1)
      && (FirstWhere(rows, OfUser(u)).Some? ==> |r| == |rows| && Profiles(r, nextId))
      && (FirstWhere(rows, OfUser(u)).None? ==> |r| == |rows| + 1)
  {
    match FirstWhere(rows, OfUser(u)) {
      case Some(k) =>
        var r := rows[k := Patched(rows[k], args, now)];
        assert forall i :: 0 <= i < |r| ==> r[i].id == rows[i].id && r[i].userId == rows[i].userId;
      case None =>
    }
  }

  /** After a save the user has exactly one profile, holding the saved
      display name and stamped with the save time; a new profile also
      records that time as its creation, a patched one keeps its own. Other
      users' profiles are untouched. */
  lemma UpsertSaves(rows: seq<ArtistProfile>, nextId: ProfileId, u: UserId, args: ProfileArgs, now: int)
    requires Profiles(rows, nextId)
    ensures var r := Upserted(rows, nextId, u, args, now);
      && GetArtistProfile(r, u).Some?
      && (var p := GetArtistProfile(r, u).value;
         && p.displayName == args.displayName && p.updatedAt == now
         && (GetArtistProfile(rows, u).Some? ==>
               p.createdAt == GetArtistProfile(rows, u).value.createdAt && p.id == GetArtistProfile(rows, u).value.id)
         && (GetArtistProfile(rows, u).None? ==> p.createdAt == now && p.id == nextId)
         && (forall i :: 0 <= i < |r| && r[i].userId == u ==> r[i] == p))
      && (forall i :: 0 <= i < |rows| && rows[i].userId != u ==> r[i] == rows[i])
  {
    var r := Upserted(rows, nextId, u, args, now);
    UpsertPreserves(rows, nextId, u, args, now);
    match FirstWhere(rows, OfUser(u)) {
      case Some(k) =>
        FirstWhereAt(r, OfUser(u), k);
      case None =>
        FirstWhereAt(r, OfUser(u), |rows|);
    }
  }

  class ArtistTable {
    var rows: seq<ArtistProfile>
    var nextId: ProfileId

    ghost predicate Valid()
      reads this
    {
      Profiles(rows, nextId)
    }

    constructor ()
      ensures Valid() && rows == []
    {
      rows := [];
      nextId := 0;
    }

    /** `createOrUpdateArtistProfile`: a signed-in caller's profile is
        patched when it exists (the call then returns nothing) or inserted
        (the call returns the new id). */
    method CreateOrUpdateArtistProfile(caller: Option<UserId>, args: ProfileArgs, now: int)
      returns (r: Result<Option<ProfileId>, ArtistError>)
      requires Valid()
      modifies this
      ensures Valid()
      ensures caller.None? ==> r == Err(NotAuthenticated) && rows == old(rows)
      ensures caller.Some? ==> r.Ok? && rows == Upserted(old(rows), old(nextId), caller.value, args, now)
      ensures caller.Some? ==> (r.value.None? <==> GetArtistProfile(old(rows), caller.value).Some?)
      ensures r.Ok? && r.value.Some? ==> r.value.value == old(nextId)
    {
      if caller.None? {
        return Err(NotAuthenticated);
      }
      var userId := caller.value;
      UpsertPreserves(rows, nextId, userId, args, now);
      var existing := FirstWhere(rows, OfUser(userId));
      match existing {
        case Some(k) =>
          rows := rows[k := Patched(rows[k], args, now)];
          r := Ok(None);
        case None =>
          var id := nextId;
          rows := rows + [NewProfile(id, userId, args, now)];
          nextId := nextId + 1;
          r := Ok(Some(id));
      }
    }
  }
}
