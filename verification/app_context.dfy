/**
 * The client-side state store of src/context/AppContext.tsx: three state cells
 * (`videos`, `playlists`, `user`) and the nine operations that replace them.
 * Each new cell value is a pure transform of the old one (spread, `map`,
 * `filter`), written here as a function; the class `AppState` holds the cells and
 * its methods assign them. `new Date()` is the parameter `now`.
 */
module AppContext {
  import opened Types
  import opened Seqs

  /** The profile used when nothing is stored yet. */
  const DefaultUser: User :=
    User("1", "User", "user@example.com", UserPreferences(false, Some(true), Some(false)))

  // ---------------------------------------------------------------- videos

  /**
   * `r` is `v` with every key `u` supplies taken from `u` and every other key
   * kept from `v`; the id is never among the keys of an update.
   */
  ghost predicate VideoMerged(v: TikTokVideo, u: VideoUpdate, r: TikTokVideo) {
    && r.id == v.id
    && (u.url.Some? ==> r.url == u.url.value) && (u.url.None? ==> r.url == v.url)
    && (u.title.Some? ==> r.title == u.title.value) && (u.title.None? ==> r.title == v.title)
    && (u.author.Some? ==> r.author == u.author.value) && (u.author.None? ==> r.author == v.author)
    && (u.thumbnail.Some? ==> r.thumbnail == u.thumbnail.value) && (u.thumbnail.None? ==> r.thumbnail == v.thumbnail)
    && (u.duration.Some? ==> r.duration == u.duration.value) && (u.duration.None? ==> r.duration == v.duration)
    && (u.addedAt.Some? ==> r.addedAt == u.addedAt.value) && (u.addedAt.None? ==> r.addedAt == v.addedAt)
  }

  /** `{ ...video, ...updates }` */
  function MergeVideo(v: TikTokVideo, u: VideoUpdate): (r: TikTokVideo)
    ensures VideoMerged(v, u, r)
  {
    TikTokVideo(v.id, u.url.GetOr(v.url), u.title.GetOr(v.title), u.author.GetOr(v.author),
      u.thumbnail.GetOr(v.thumbnail), u.duration.GetOr(v.duration), u.addedAt.GetOr(v.addedAt))
  }

  /** The new `videos` of `updateVideo`: merge into every video with that id. */
  function UpdateVideos(vs: seq<TikTokVideo>, id: string, u: VideoUpdate): seq<TikTokVideo> {
    seq(|vs|, i requires 0 <= i < |vs| => if vs[i].id == id then MergeVideo(vs[i], u) else vs[i])
  }

  /** The new `videos` of `deleteVideo`. */
  function WithoutVideo(vs: seq<TikTokVideo>, id: string): (r: seq<TikTokVideo>)
    ensures id !in VideoIds(r)
    ensures forall v :: v in r <==> v in vs && v.id != id
    ensures forall v :: multiset(r)[v] == if v.id != id then multiset(vs)[v] else 0
    ensures IsSubsequence(r, vs)
  {
    var r := Filter(vs, (v: TikTokVideo) => v.id != id);
    assert forall i :: 0 <= i < |r| ==> r[i] in r;
    r
  }

  // ------------------------------------------------------------- playlists

  /** `ids.filter(x => x !== id)` */
  function PurgeId(ids: seq<string>, id: string): (r: seq<string>)
    ensures multiset(r) == multiset(ids)[id := 0]
    ensures IsSubsequence(r, ids)
  {
    var r := Filter(ids, (x: string) => x != id);
    assert forall x :: multiset(r)[x] == multiset(ids)[id := 0][x];
    r
  }

  /** The new `playlists` of `deleteVideo`: the id leaves every member list. */
  function PurgeFromAll(ps: seq<Playlist>, id: string): seq<Playlist> {
    seq(|ps|, i requires 0 <= i < |ps| => ps[i].(videos := PurgeId(ps[i].videos, id)))
  }

  /**
   * `r` is `p` with every key `u` supplies taken from `u`, every other key kept
   * from `p`, and `updatedAt` set to `now` whatever `u` says.
   */
  ghost predicate PlaylistMerged(p: Playlist, u: PlaylistUpdate, now: int, r: Playlist) {
    && (u.id.Some? ==> r.id == u.id.value) && (u.id.None? ==> r.id == p.id)
    && (u.name.Some? ==> r.name == u.name.value) && (u.name.None? ==> r.name == p.name)
    && (u.description.Some? ==> r.description == u.description.value)
    && (u.description.None? ==> r.description == p.description)
    && (u.videos.Some? ==> r.videos == u.videos.value) && (u.videos.None? ==> r.videos == p.videos)
    && (u.createdAt.Some? ==> r.createdAt == u.createdAt.value) && (u.createdAt.None? ==> r.createdAt == p.createdAt)
    && r.updatedAt == now
  }

  /** `{ ...playlist, ...playlistUpdate, updatedAt: now }` */
  function MergePlaylist(p: Playlist, u: PlaylistUpdate, now: int): (r: Playlist)
    ensures PlaylistMerged(p, u, now, r)
  {
    Playlist(u.id.GetOr(p.id), u.name.GetOr(p.name), u.description.GetOr(p.description),
      u.videos.GetOr(p.videos), u.createdAt.GetOr(p.createdAt), now)
  }

  /** The new `playlists` of `updatePlaylist`. */
  function UpdatePlaylists(ps: seq<Playlist>, id: string, u: PlaylistUpdate, now: int): seq<Playlist> {
    seq(|ps|, i requires 0 <= i < |ps| => if ps[i].id == id then MergePlaylist(ps[i], u, now) else ps[i])
  }

  /** The new `playlists` of `deletePlaylist`. */
  function WithoutPlaylist(ps: seq<Playlist>, id: string): (r: seq<Playlist>)
    ensures id !in PlaylistIds(r)
    ensures forall p :: p in r <==> p in ps && p.id != id
    ensures forall p :: multiset(r)[p] == if p.id != id then multiset(ps)[p] else 0
    ensures IsSubsequence(r, ps)
  {
    var r := Filter(ps, (p: Playlist) => p.id != id);
    assert forall i :: 0 <= i < |r| ==> r[i] in r;
    r
  }

  /** The new `playlists` of `addVideoToPlaylist`: only a playlist that lacks the video changes. */
  function AppendMember(ps: seq<Playlist>, playlistId: string, videoId: string, now: int): seq<Playlist> {
    seq(|ps|, i requires 0 <= i < |ps| =>
      if ps[i].id == playlistId && videoId !in ps[i].videos
      then ps[i].(videos := ps[i].videos + [videoId], updatedAt := now)
      else ps[i])
  }

  /** The new `playlists` of `removeVideoFromPlaylist`: a matching playlist is stamped even if the video was absent. */
  function RemoveMember(ps: seq<Playlist>, playlistId: string, videoId: string, now: int): seq<Playlist> {
    seq(|ps|, i requires 0 <= i < |ps| =>
      if ps[i].id == playlistId
      then ps[i].(videos := PurgeId(ps[i].videos, videoId), updatedAt := now)
      else ps[i])
  }

  /** No playlist lists a video twice. */
  ghost predicate AllMembersDistinct(ps: seq<Playlist>) {
    forall i :: 0 <= i < |ps| ==> NoDuplicates(ps[i].videos)
  }

  // ------------------------------------------------------------------ user

  /** `{ ...prev.preferences, ...preferences }` */
  function MergePreferences(p: UserPreferences, u: PreferencesUpdate): UserPreferences {
    UserPreferences(u.darkMode.GetOr(p.darkMode),
      if u.autoplay.Some? then u.autoplay else p.autoplay,
      if u.muteVideos.Some? then u.muteVideos else p.muteVideos)
  }

  /** The update that applies `first` and then `second`: keys of `second` win. */
  function CombineUpdates(first: PreferencesUpdate, second: PreferencesUpdate): PreferencesUpdate {
    PreferencesUpdate(
      if second.darkMode.Some? then second.darkMode else first.darkMode,
      if second.autoplay.Some? then second.autoplay else first.autoplay,
      if second.muteVideos.Some? then second.muteVideos else first.muteVideos)
  }

  /** The new `user` of `updateUserPreferences`. */
  function UpdateUser(user: User, u: PreferencesUpdate): User {
    user.(preferences := MergePreferences(user.preferences, u))
  }

  // --------------------------------------------------------------- lookups

  /** `playlists.find(p => p.id === id)`; `FindPlaylistIsFirst` says which one it finds. */
  function FindPlaylist(ps: seq<Playlist>, id: string): (r: Option<Playlist>)
    ensures r.None? <==> id !in PlaylistIds(ps)
    ensures r.Some? ==> r.value.id == id
  {
    match IndexOf(PlaylistIds(ps), id)
    case None => None
    case Some(i) => Some(ps[i])
  }

  /** The playlist found is the first one carrying the id. */
  lemma FindPlaylistIsFirst(ps: seq<Playlist>, id: string)
    requires id in PlaylistIds(ps)
    ensures exists i :: 0 <= i < |ps| && ps[i] == FindPlaylist(ps, id).value && id !in PlaylistIds(ps)[..i]
  {
    var i := IndexOf(PlaylistIds(ps), id).value;
    assert ps[i] == FindPlaylist(ps, id).value;
  }

  /** `videos.find(v => v.id === id)`; `FindVideoIsFirst` says which one it finds. */
  function FindVideo(vs: seq<TikTokVideo>, id: string): (r: Option<TikTokVideo>)
    ensures r.None? <==> id !in VideoIds(vs)
    ensures r.Some? ==> r.value.id == id
  {
    match IndexOf(VideoIds(vs), id)
    case None => None
    case Some(i) => Some(vs[i])
  }

  /**
   * An update that leaves the id alone keeps the playlist findable: the lookup
   * afterwards finds the merged playlist, with every supplied key in place.
   */
  lemma FindPlaylistAfterUpdate(ps: seq<Playlist>, id: string, u: PlaylistUpdate, now: int)
    requires u.id.None? || u.id == Some(id)
    ensures var r := FindPlaylist(UpdatePlaylists(ps, id, u, now), id);
      && (r.Some? <==> FindPlaylist(ps, id).Some?)
      && (r.Some? ==> PlaylistMerged(FindPlaylist(ps, id).value, u, now, r.value))
  {
    var qs := UpdatePlaylists(ps, id, u, now);
    assert PlaylistIds(qs) == PlaylistIds(ps);
  }

  /** The video found is the first library video carrying the id. */
  lemma FindVideoIsFirst(vs: seq<TikTokVideo>, id: string)
    requires id in VideoIds(vs)
    ensures exists i :: 0 <= i < |vs| && vs[i] == FindVideo(vs, id).value && id !in VideoIds(vs)[..i]
  {
    var i := IndexOf(VideoIds(vs), id).value;
    assert vs[i] == FindVideo(vs, id).value;
  }

  /** After an update the lookup finds the merged video, with every supplied key in place. */
  lemma FindVideoAfterUpdate(vs: seq<TikTokVideo>, id: string, u: VideoUpdate)
    ensures var r := FindVideo(UpdateVideos(vs, id, u), id);
      && (r.Some? <==> FindVideo(vs, id).Some?)
      && (r.Some? ==> VideoMerged(FindVideo(vs, id).value, u, r.value))
  {
    var ws := UpdateVideos(vs, id, u);
    assert VideoIds(ws) == VideoIds(vs);
  }

  /** With unique video ids, looking up a library video's id finds that video. */
  lemma FindVideoUnique(vs: seq<TikTokVideo>, v: TikTokVideo)
    requires NoDuplicates(VideoIds(vs)) && v in vs
    ensures FindVideo(vs, v.id) == Some(v)
  {
    var j :| 0 <= j < |vs| && vs[j] == v;
    assert VideoIds(vs)[j] == v.id;
    var i := IndexOf(VideoIds(vs), v.id).value;
    assert VideoIds(vs)[i] == VideoIds(vs)[j];
  }

  // ------------------------------------------------------------------ store

  class AppState {
    var videos: seq<TikTokVideo>
    var playlists: seq<Playlist>
    var user: User

    /** First start with nothing stored. */
    constructor ()
      ensures videos == [] && playlists == [] && user == DefaultUser
    {
      videos, playlists, user := [], [], DefaultUser;
    }

    /** Start from collections already loaded from storage. */
    constructor Restore(videos: seq<TikTokVideo>, playlists: seq<Playlist>, user: User)
      ensures this.videos == videos && this.playlists == playlists && this.user == user
    {
      this.videos, this.playlists, this.user := videos, playlists, user;
    }

    /** Video ids and playlist ids are unique. The store does not enforce this; its callers do. */
    ghost predicate IdsUnique()
      reads this
    {
      NoDuplicates(VideoIds(videos)) && NoDuplicates(PlaylistIds(playlists))
    }

    /** No playlist lists a video twice: the rule the store itself enforces. */
    ghost predicate MembersDistinct()
      reads this
    {
      AllMembersDistinct(playlists)
    }

    method AddVideo(video: TikTokVideo)
      modifies this
      ensures videos == old(videos) + [video]
      ensures playlists == old(playlists) && user == old(user)
      ensures old(IdsUnique()) && video.id !in old(VideoIds(videos)) ==> IdsUnique()
    {
      if IdsUnique() && video.id !in VideoIds(videos) {
        AddingFreshVideoKeepsIdsUnique(videos, video);
      }
      videos := videos + [video];
    }

    method UpdateVideo(id: string, updates: VideoUpdate)
      modifies this
      ensures videos == UpdateVideos(old(videos), id, updates)
      ensures playlists == old(playlists) && user == old(user)
      ensures VideoIds(videos) == old(VideoIds(videos))
    {
      UpdateVideosKeepsIds(videos, id, updates);
      videos := UpdateVideos(videos, id, updates);
    }

    method DeleteVideo(id: string)
      modifies this
      ensures videos == WithoutVideo(old(videos), id)
      ensures playlists == PurgeFromAll(old(playlists), id)
      ensures user == old(user)
      ensures id !in VideoIds(videos)
      ensures forall i :: 0 <= i < |playlists| ==> id !in playlists[i].videos
      ensures old(MembersDistinct()) ==> MembersDistinct()
    {
      DeleteVideoCascades(playlists, id);
      videos := WithoutVideo(videos, id);
      playlists := PurgeFromAll(playlists, id);
    }

    method AddPlaylist(playlist: Playlist)
      modifies this
      ensures playlists == old(playlists) + [playlist]
      ensures videos == old(videos) && user == old(user)
      ensures old(MembersDistinct()) && NoDuplicates(playlist.videos) ==> MembersDistinct()
    {
      playlists := playlists + [playlist];
    }

    method UpdatePlaylist(id: string, update: PlaylistUpdate, now: int)
      modifies this
      ensures playlists == UpdatePlaylists(old(playlists), id, update, now)
      ensures videos == old(videos) && user == old(user)
      ensures old(MembersDistinct()) && (update.videos.Some? ==> NoDuplicates(update.videos.value))
        ==> MembersDistinct()
    {
      playlists := UpdatePlaylists(playlists, id, update, now);
    }

    method DeletePlaylist(id: string)
      modifies this
      ensures playlists == WithoutPlaylist(old(playlists), id)
      ensures videos == old(videos) && user == old(user)
      ensures old(MembersDistinct()) ==> MembersDistinct()
    {
      playlists := WithoutPlaylist(playlists, id);
    }

    method AddVideoToPlaylist(playlistId: string, videoId: string, now: int)
      modifies this
      ensures playlists == AppendMember(old(playlists), playlistId, videoId, now)
      ensures videos == old(videos) && user == old(user)
      ensures old(MembersDistinct()) ==> MembersDistinct()
    {
      if AllMembersDistinct(playlists) {
        AppendMemberKeepsDistinct(playlists, playlistId, videoId, now);
      }
      playlists := AppendMember(playlists, playlistId, videoId, now);
    }

    method RemoveVideoFromPlaylist(playlistId: string, videoId: string, now: int)
      modifies this
      ensures playlists == RemoveMember(old(playlists), playlistId, videoId, now)
      ensures videos == old(videos) && user == old(user)
      ensures old(MembersDistinct()) ==> MembersDistinct()
    {
      if AllMembersDistinct(playlists) {
        RemoveMemberKeepsDistinct(playlists, playlistId, videoId, now);
      }
      playlists := RemoveMember(playlists, playlistId, videoId, now);
    }

    method UpdateUserPreferences(preferences: PreferencesUpdate)
      modifies this
      ensures user == UpdateUser(old(user), preferences)
      ensures videos == old(videos) && playlists == old(playlists)
    {
      user := UpdateUser(user, preferences);
    }
  }

  // ---------------------------------------------------------------- lemmas

  /** Appending a video whose id is new keeps video ids unique. */
  lemma AddingFreshVideoKeepsIdsUnique(vs: seq<TikTokVideo>, v: TikTokVideo)
    requires NoDuplicates(VideoIds(vs)) && v.id !in VideoIds(vs)
    ensures NoDuplicates(VideoIds(vs + [v]))
  {
    assert VideoIds(vs + [v]) == VideoIds(vs) + [v.id];
    NoDuplicatesAppend(VideoIds(vs), v.id);
  }

  /**
   * `updateVideo` keeps length, order and ids; every video with the id gets the
   * given fields and keeps the others; all other videos are untouched; an unknown
   * id changes nothing.
   */
  lemma UpdateVideosKeepsIds(vs: seq<TikTokVideo>, id: string, u: VideoUpdate)
    ensures var r := UpdateVideos(vs, id, u);
      && VideoIds(r) == VideoIds(vs)
      && (forall i :: 0 <= i < |vs| && vs[i].id == id ==> VideoMerged(vs[i], u, r[i]))
      && (forall i :: 0 <= i < |vs| && vs[i].id != id ==> r[i] == vs[i])
      && (id !in VideoIds(vs) ==> r == vs)
  {
    var r := UpdateVideos(vs, id, u);
    assert VideoIds(r) == VideoIds(vs);
    if id !in VideoIds(vs) {
      assert forall i :: 0 <= i < |vs| ==> vs[i].id == VideoIds(vs)[i];
    }
  }

  /**
   * Deleting a video: the id leaves the library and every member list; the
   * playlists keep their number, order, ids, names, descriptions and both
   * timestamps; each member list keeps the other ids in their order.
   */
  lemma DeleteVideoCascades(ps: seq<Playlist>, id: string)
    ensures var r := PurgeFromAll(ps, id);
      && |r| == |ps|
      && (forall i :: 0 <= i < |r| ==>
            && id !in r[i].videos
            && IsSubsequence(r[i].videos, ps[i].videos)
            && r[i].id == ps[i].id && r[i].name == ps[i].name
            && r[i].description == ps[i].description
            && r[i].createdAt == ps[i].createdAt && r[i].updatedAt == ps[i].updatedAt)
      && (AllMembersDistinct(ps) ==> AllMembersDistinct(r))
  {
    var r := PurgeFromAll(ps, id);
    forall i | 0 <= i < |r|
      ensures id !in r[i].videos
      ensures AllMembersDistinct(ps) ==> NoDuplicates(r[i].videos)
    {
      assert multiset(r[i].videos)[id] == 0;
      if AllMembersDistinct(ps) {
        FilterKeepsNoDuplicates(ps[i].videos, (x: string) => x != id);
      }
    }
  }

  /** Adding a video to a playlist twice is the same as adding it once, whatever the second time stamp. */
  lemma AppendMemberIdempotent(ps: seq<Playlist>, playlistId: string, videoId: string, now: int, later: int)
    ensures AppendMember(AppendMember(ps, playlistId, videoId, now), playlistId, videoId, later)
         == AppendMember(ps, playlistId, videoId, now)
  {
    var once := AppendMember(ps, playlistId, videoId, now);
    var twice := AppendMember(once, playlistId, videoId, later);
    forall i | 0 <= i < |ps|
      ensures twice[i] == once[i]
    {
      if ps[i].id == playlistId && videoId !in ps[i].videos {
        assert videoId in once[i].videos by {
          assert once[i].videos[|ps[i].videos|] == videoId;
        }
      }
    }
  }

  /**
   * Adding a video to a playlist that lacks it lengthens that playlist's list by
   * exactly one, puts the video last and stamps `now`; in every other case the
   * playlist is unchanged.
   */
  lemma AppendMemberEffect(ps: seq<Playlist>, playlistId: string, videoId: string, now: int)
    ensures var r := AppendMember(ps, playlistId, videoId, now);
      && |r| == |ps| && PlaylistIds(r) == PlaylistIds(ps)
      && (forall i :: 0 <= i < |ps| && ps[i].id == playlistId && videoId !in ps[i].videos ==>
            && |r[i].videos| == |ps[i].videos| + 1
            && r[i].videos[..|ps[i].videos|] == ps[i].videos
            && r[i].videos[|ps[i].videos|] == videoId
            && r[i].updatedAt == now
            && r[i].(videos := ps[i].videos, updatedAt := ps[i].updatedAt) == ps[i])
      && (forall i :: 0 <= i < |ps| && (ps[i].id != playlistId || videoId in ps[i].videos) ==>
            r[i] == ps[i])
  {
    var r := AppendMember(ps, playlistId, videoId, now);
    assert PlaylistIds(r) == PlaylistIds(ps);
    forall i | 0 <= i < |ps| && ps[i].id == playlistId && videoId !in ps[i].videos
      ensures r[i].videos[..|ps[i].videos|] == ps[i].videos
    {
      assert r[i].videos == ps[i].videos + [videoId];
    }
  }

  /** Adding a video keeps every member list free of duplicates. */
  lemma AppendMemberKeepsDistinct(ps: seq<Playlist>, playlistId: string, videoId: string, now: int)
    requires AllMembersDistinct(ps)
    ensures AllMembersDistinct(AppendMember(ps, playlistId, videoId, now))
  {
    var r := AppendMember(ps, playlistId, videoId, now);
    forall i | 0 <= i < |r|
      ensures NoDuplicates(r[i].videos)
    {
      if ps[i].id == playlistId && videoId !in ps[i].videos {
        NoDuplicatesAppend(ps[i].videos, videoId);
      }
    }
  }

  /**
   * Removing a video from a playlist: the id is gone from the matching playlist,
   * whose other members keep their order and which is stamped `now` even if the
   * video was absent; the other playlists are unchanged.
   */
  lemma RemoveMemberEffect(ps: seq<Playlist>, playlistId: string, videoId: string, now: int)
    ensures var r := RemoveMember(ps, playlistId, videoId, now);
      && |r| == |ps| && PlaylistIds(r) == PlaylistIds(ps)
      && (forall i :: 0 <= i < |ps| && ps[i].id == playlistId ==>
            && videoId !in r[i].videos
            && (forall x :: x != videoId ==> (x in r[i].videos <==> x in ps[i].videos))
            && IsSubsequence(r[i].videos, ps[i].videos)
            && r[i].updatedAt == now)
      && (forall i :: 0 <= i < |ps| && ps[i].id != playlistId ==> r[i] == ps[i])
  {
    var r := RemoveMember(ps, playlistId, videoId, now);
    assert PlaylistIds(r) == PlaylistIds(ps);
    forall i | 0 <= i < |ps| && ps[i].id == playlistId
      ensures videoId !in r[i].videos
      ensures forall x :: x != videoId ==> (x in r[i].videos <==> x in ps[i].videos)
    {
      assert multiset(r[i].videos)[videoId] == 0;
      forall x | x != videoId
        ensures x in r[i].videos <==> x in ps[i].videos
      {
        assert multiset(r[i].videos)[x] == multiset(ps[i].videos)[x];
      }
    }
  }

  /** Removing a video keeps every member list free of duplicates. */
  lemma RemoveMemberKeepsDistinct(ps: seq<Playlist>, playlistId: string, videoId: string, now: int)
    requires AllMembersDistinct(ps)
    ensures AllMembersDistinct(RemoveMember(ps, playlistId, videoId, now))
  {
    var r := RemoveMember(ps, playlistId, videoId, now);
    forall i | 0 <= i < |r|
      ensures NoDuplicates(r[i].videos)
    {
      if ps[i].id == playlistId {
        FilterKeepsNoDuplicates(ps[i].videos, (x: string) => x != videoId);
      }
    }
  }

  /** Purging an id that was appended to a list without it gives the list back. */
  lemma PurgeAppended(ids: seq<string>, id: string)
    requires id !in ids
    ensures PurgeId(ids + [id], id) == ids
  {
    var keep := (x: string) => x != id;
    FilterSnocRejected(ids, id, keep);
    FilterKeepsAll(ids, keep);
  }

  /**
   * Removing a video right after adding it restores the member lists: the pair
   * of operations changes nothing but time stamps.
   */
  lemma RemoveUndoesAppend(ps: seq<Playlist>, playlistId: string, videoId: string, now: int, later: int)
    requires forall i :: 0 <= i < |ps| && ps[i].id == playlistId ==> videoId !in ps[i].videos
    ensures var r := RemoveMember(AppendMember(ps, playlistId, videoId, now), playlistId, videoId, later);
      && |r| == |ps|
      && forall i :: 0 <= i < |ps| ==> r[i].videos == ps[i].videos
  {
    var r := RemoveMember(AppendMember(ps, playlistId, videoId, now), playlistId, videoId, later);
    forall i | 0 <= i < |ps|
      ensures r[i].videos == ps[i].videos
    {
      if ps[i].id == playlistId {
        PurgeAppended(ps[i].videos, videoId);
      }
    }
  }

  /**
   * `updatePlaylist` stamps `now` on every matching playlist even when the update
   * carries its own `updatedAt`, takes each given key and keeps the others; other
   * playlists are untouched and an unknown id changes nothing.
   */
  lemma UpdatePlaylistsEffect(ps: seq<Playlist>, id: string, u: PlaylistUpdate, now: int)
    ensures var r := UpdatePlaylists(ps, id, u, now);
      && |r| == |ps|
      && (forall i :: 0 <= i < |ps| && ps[i].id == id ==> PlaylistMerged(ps[i], u, now, r[i]))
      && (forall i :: 0 <= i < |ps| && ps[i].id != id ==> r[i] == ps[i])
      && (id !in PlaylistIds(ps) ==> r == ps)
  {
    if id !in PlaylistIds(ps) {
      assert forall i :: 0 <= i < |ps| ==> ps[i].id == PlaylistIds(ps)[i];
    }
  }

  /**
   * `updatePlaylist` does not check a supplied member list: a store whose lists
   * are all distinct can be given one with a duplicate.
   */
  lemma UpdatePlaylistsAcceptsDuplicates()
    ensures var ps := [Playlist("p1", "Favs", "", [], 0, 0)];
      var u := PlaylistUpdate(None, None, None, Some(["v1", "v1"]), None, None);
      AllMembersDistinct(ps) && !AllMembersDistinct(UpdatePlaylists(ps, "p1", u, 1))
  {
    var ps := [Playlist("p1", "Favs", "", [], 0, 0)];
    var u := PlaylistUpdate(None, None, None, Some(["v1", "v1"]), None, None);
    var r := UpdatePlaylists(ps, "p1", u, 1);
    assert r[0].videos == ["v1", "v1"];
    assert r[0].videos[0] == r[0].videos[1];
  }

  /**
   * Time stamps never move backwards: when `now` is not earlier than any stored
   * `updatedAt`, each playlist of the result is at least as recent as before.
   */
  lemma StampsNeverGoBack(ps: seq<Playlist>, playlistId: string, videoId: string, u: PlaylistUpdate, now: int)
    requires forall i :: 0 <= i < |ps| ==> ps[i].updatedAt <= now
    ensures forall i :: 0 <= i < |ps| ==>
      && ps[i].updatedAt <= UpdatePlaylists(ps, playlistId, u, now)[i].updatedAt
      && ps[i].updatedAt <= AppendMember(ps, playlistId, videoId, now)[i].updatedAt
      && ps[i].updatedAt <= RemoveMember(ps, playlistId, videoId, now)[i].updatedAt
      && ps[i].updatedAt == PurgeFromAll(ps, videoId)[i].updatedAt
  {
  }

  /** Preference keys that the update names are overwritten, the others and the profile kept. */
  lemma UpdateUserEffect(user: User, u: PreferencesUpdate)
    ensures var r := UpdateUser(user, u);
      && r.id == user.id && r.name == user.name && r.email == user.email
      && r.preferences.darkMode == (if u.darkMode.Some? then u.darkMode.value else user.preferences.darkMode)
      && r.preferences.autoplay == (if u.autoplay.Some? then u.autoplay else user.preferences.autoplay)
      && r.preferences.muteVideos == (if u.muteVideos.Some? then u.muteVideos else user.preferences.muteVideos)
  {
  }

  /** Two successive shallow merges are one merge of the combined update. */
  lemma MergePreferencesTwice(p: UserPreferences, first: PreferencesUpdate, second: PreferencesUpdate)
    ensures MergePreferences(MergePreferences(p, first), second)
         == MergePreferences(p, CombineUpdates(first, second))
  {
  }

  /**
   * The walk-through of the store: add a video and a playlist, put the video in
   * the playlist, then delete the video; both collections end as promised.
   */
  lemma StoreScenario(v: TikTokVideo, p: Playlist, t1: int, t2: int)
    requires v.id == "v1" && p.id == "p1" && p.videos == []
    ensures var ps1 := AppendMember([] + [p], "p1", "v1", t1);
      && ps1[0].videos == ["v1"]
      && WithoutVideo([] + [v], "v1") == []
      && PurgeFromAll(ps1, "v1")[0].videos == []
  {
    var ps1 := AppendMember([] + [p], "p1", "v1", t1);
    assert ps1[0].videos == [] + ["v1"];
  }
}
