/**
 * The playlist page that is routed, src/pages/PlaylistDetailPage.tsx: the member
 * videos in library order, the header count, and one dialog flag shared by the
 * "delete playlist" and "remove video" confirmations, told apart by whether a
 * target video is set.
 */
module PlaylistDetailPage {
  import opened Types
  import opened Seqs
  import opened AppContext
  import PlaylistPage
  import PlaylistCard

  /**
   * `videos.filter(video => playlist.videos.includes(video.id))`: library videos
   * whose id is a member, in library order; a member id with no video adds nothing.
   */
  function DetailVideos(vs: seq<TikTokVideo>, ids: seq<string>): (r: seq<TikTokVideo>)
    ensures forall v :: v in r <==> v in vs && v.id in ids
    ensures forall v :: multiset(r)[v] == if v.id in ids then multiset(vs)[v] else 0
    ensures IsSubsequence(r, vs)
  {
    Filter(vs, (v: TikTokVideo) => v.id in ids)
  }

  /**
   * With unique library ids and distinct members, this page and the playback
   * page show the same videos, each once; only the order differs (library order
   * here, playlist order there).
   */
  lemma DetailMatchesPlayer(vs: seq<TikTokVideo>, ids: seq<string>)
    requires NoDuplicates(VideoIds(vs)) && NoDuplicates(ids)
    ensures multiset(DetailVideos(vs, ids)) == multiset(PlaylistPage.ResolveMembers(ids, vs))
  {
    var d := DetailVideos(vs, ids);
    var r := PlaylistPage.ResolveMembers(ids, vs);
    UniqueIdsUniqueVideos(vs);
    FilterKeepsNoDuplicates(vs, (v: TikTokVideo) => v.id in ids);
    ResolvedUnique(ids, vs);
    forall v
      ensures v in d <==> v in r
    {
      if v in r {
        ResolvedIsMember(ids, vs, v);
      }
      if v in d {
        MemberIsResolved(ids, vs, v);
      }
    }
    SameMembersSameMultiset(d, r);
  }

  /** Unique ids make the videos themselves distinct. */
  lemma UniqueIdsUniqueVideos(vs: seq<TikTokVideo>)
    requires NoDuplicates(VideoIds(vs))
    ensures NoDuplicates(vs)
  {
    forall i, j | 0 <= i < j < |vs| ensures vs[i] != vs[j] {
      assert VideoIds(vs)[i] != VideoIds(vs)[j];
    }
  }

  /** Distinct members resolve to distinct videos. */
  lemma ResolvedUnique(ids: seq<string>, vs: seq<TikTokVideo>)
    requires NoDuplicates(ids)
    ensures NoDuplicates(PlaylistPage.ResolveMembers(ids, vs))
  {
    var r := PlaylistPage.ResolveMembers(ids, vs);
    FilterKeepsNoDuplicates(ids, (x: string) => x in VideoIds(vs));
    assert NoDuplicates(VideoIds(r));
    forall i, j | 0 <= i < j < |r| ensures r[i] != r[j] {
      assert VideoIds(r)[i] != VideoIds(r)[j];
    }
  }

  /** A video the playback page shows is a library video whose id is a member. */
  lemma ResolvedIsMember(ids: seq<string>, vs: seq<TikTokVideo>, v: TikTokVideo)
    requires v in PlaylistPage.ResolveMembers(ids, vs)
    ensures v in vs && v.id in ids
  {
    var r := PlaylistPage.ResolveMembers(ids, vs);
    var i :| 0 <= i < |r| && r[i] == v;
    PlaylistPage.ResolvedAreFound(ids, vs);
    FindVideoIsFirst(vs, v.id);
    assert VideoIds(r)[i] in PlaylistPage.KnownMembers(ids, vs);
  }

  /** With unique library ids, a library video whose id is a member is shown by the playback page. */
  lemma MemberIsResolved(ids: seq<string>, vs: seq<TikTokVideo>, v: TikTokVideo)
    requires NoDuplicates(VideoIds(vs))
    requires v in vs && v.id in ids
    ensures v in PlaylistPage.ResolveMembers(ids, vs)
  {
    var r := PlaylistPage.ResolveMembers(ids, vs);
    FindVideoUnique(vs, v);
    var j :| 0 <= j < |vs| && vs[j] == v;
    assert VideoIds(vs)[j] == v.id;
    var known := PlaylistPage.KnownMembers(ids, vs);
    assert v.id in known;
    assert VideoIds(r) == known;
    var i :| 0 <= i < |VideoIds(r)| && VideoIds(r)[i] == v.id;
    PlaylistPage.ResolvedIsFound(ids, vs, i);
    assert r[i] == v;
  }

  /** Two duplicate-free sequences with the same members are permutations of each other. */
  lemma SameMembersSameMultiset<T>(a: seq<T>, b: seq<T>)
    requires NoDuplicates(a) && NoDuplicates(b)
    requires forall x :: x in a <==> x in b
    ensures multiset(a) == multiset(b)
  {
    NoDuplicatesCounts(a);
    NoDuplicatesCounts(b);
    forall x
      ensures multiset(a)[x] == multiset(b)[x]
    {
      if x in a {
        assert x in multiset(a) && x in multiset(b);
      }
    }
  }

  /** The header: the raw member count, dangling ids included. */
  function HeaderCount(p: Playlist): string {
    PlaylistCard.VideoCountLabel(|p.videos|)
  }

  /** A dangling member is counted in the header but shows no video. */
  lemma HeaderCountsDangling()
    ensures var p := Playlist("p1", "Mix", "", ["gone"], 0, 0);
      DetailVideos([], p.videos) == [] && HeaderCount(p) == PlaylistCard.VideoCountLabel(1)
  {
  }

  /** `if (videoToRemove)`: null and the empty string are both falsy. */
  predicate Truthy(target: Option<string>) {
    target.Some? && target.value != ""
  }

  class Page {
    const store: AppState
    const playlistId: string
    var dialogOpen: bool
    var videoToRemove: Option<string>

    constructor (store: AppState, playlistId: string)
      ensures this.store == store && this.playlistId == playlistId
      ensures !dialogOpen && videoToRemove.None?
    {
      this.store := store;
      this.playlistId := playlistId;
      dialogOpen, videoToRemove := false, None;
    }

    function Current(): Option<Playlist>
      reads store
    {
      FindPlaylist(store.playlists, playlistId)
    }

    /** The "delete playlist" confirmation is open. */
    predicate DeleteDialogShown()
      reads this
    {
      dialogOpen && !Truthy(videoToRemove)
    }

    /** The "remove video" confirmation is open; never together with the other one. */
    predicate RemoveDialogShown()
      reads this
      ensures RemoveDialogShown() ==> !DeleteDialogShown()
      ensures dialogOpen <==> RemoveDialogShown() || DeleteDialogShown()
    {
      dialogOpen && Truthy(videoToRemove)
    }

    /** The "Delete Playlist" button. */
    method OpenDeleteDialog()
      modifies this
      ensures dialogOpen && videoToRemove == old(videoToRemove)
      ensures !Truthy(videoToRemove) ==> DeleteDialogShown()
    {
      dialogOpen := true;
    }

    /**
     * `handleRemoveVideo`: record the target and open the dialog, without a
     * store call. An empty id is falsy, so it opens the delete dialog instead.
     */
    method HandleRemoveVideo(videoId: string)
      modifies this
      ensures videoToRemove == Some(videoId) && dialogOpen
      ensures videoId != "" ==> RemoveDialogShown()
      ensures videoId == "" ==> DeleteDialogShown()
    {
      videoToRemove := Some(videoId);
      dialogOpen := true;
    }

    /**
     * `handleConfirmRemove`: a truthy target is removed from this playlist and
     * cleared; the dialog closes in every case.
     */
    method HandleConfirmRemove(now: int)
      requires Current().Some?
      modifies this, store
      ensures old(Truthy(videoToRemove)) ==>
        && store.playlists == RemoveMember(old(store.playlists), playlistId, old(videoToRemove).value, now)
        && videoToRemove.None?
      ensures !old(Truthy(videoToRemove)) ==>
        store.playlists == old(store.playlists) && videoToRemove == old(videoToRemove)
      ensures !dialogOpen && !DeleteDialogShown() && !RemoveDialogShown()
      ensures store.videos == old(store.videos) && store.user == old(store.user)
    {
      var p := Current().value;
      if Truthy(videoToRemove) {
        store.RemoveVideoFromPlaylist(p.id, videoToRemove.value, now);
        videoToRemove := None;
      }
      dialogOpen := false;
    }

    /** `handleCancelRemove`: clear the target and close, without a store call. */
    method HandleCancelRemove()
      modifies this
      ensures videoToRemove.None? && !dialogOpen
    {
      videoToRemove := None;
      dialogOpen := false;
    }

    /** `handleDeletePlaylist`: the playlist leaves the store. */
    method HandleDeletePlaylist()
      requires Current().Some?
      modifies store
      ensures store.playlists == WithoutPlaylist(old(store.playlists), playlistId)
      ensures Current().None?
      ensures store.videos == old(store.videos) && store.user == old(store.user)
    {
      var p := Current().value;
      store.DeletePlaylist(p.id);
    }
  }
}
