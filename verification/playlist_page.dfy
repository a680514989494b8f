/**
 * The playback page of src/pages/PlaylistPage.tsx: the playlist's member ids
 * resolved into library videos, the `currentVideoIndex` state moved by the
 * next, previous, select and remove handlers, and the id put into the player's
 * embed URL.
 */
module PlaylistPage {
  import opened Types
  import opened Seqs
  import opened AppContext

  /** The member ids that name a library video, in playlist order. */
  function KnownMembers(ids: seq<string>, vs: seq<TikTokVideo>): seq<string> {
    Filter(ids, (x: string) => x in VideoIds(vs))
  }

  /**
   * `playlistVideos`: each member id mapped to the first library video with that
   * id, ids with no video dropped. The videos carry exactly the known member ids,
   * in playlist order; `ResolvedAreFound` says which video each one is.
   */
  function ResolveMembers(ids: seq<string>, vs: seq<TikTokVideo>): (r: seq<TikTokVideo>)
    ensures VideoIds(r) == KnownMembers(ids, vs)
  {
    if ids == [] then []
    else
      var rest := ResolveMembers(ids[1..], vs);
      FilterCons(ids, (x: string) => x in VideoIds(vs));
      match FindVideo(vs, ids[0])
      case None => rest
      case Some(v) =>
        assert VideoIds([v] + rest) == [v.id] + VideoIds(rest);
        [v] + rest
  }

  /** Each resolved video is the first library video carrying its id. */
  lemma ResolvedAreFound(ids: seq<string>, vs: seq<TikTokVideo>)
    ensures var r := ResolveMembers(ids, vs);
      forall i :: 0 <= i < |r| ==> FindVideo(vs, r[i].id) == Some(r[i])
  {
    var r := ResolveMembers(ids, vs);
    forall i | 0 <= i < |r|
      ensures FindVideo(vs, r[i].id) == Some(r[i])
    {
      ResolvedIsFound(ids, vs, i);
    }
  }

  lemma {:induction false} ResolvedIsFound(ids: seq<string>, vs: seq<TikTokVideo>, i: nat)
    requires i < |ResolveMembers(ids, vs)|
    ensures FindVideo(vs, ResolveMembers(ids, vs)[i].id) == Some(ResolveMembers(ids, vs)[i])
    decreases ids
  {
    var rest := ResolveMembers(ids[1..], vs);
    var found := FindVideo(vs, ids[0]);
    if found.None? {
      assert ResolveMembers(ids, vs) == rest;
      ResolvedIsFound(ids[1..], vs, i);
    } else {
      assert ResolveMembers(ids, vs) == [found.value] + rest;
      if i > 0 {
        ResolvedIsFound(ids[1..], vs, i - 1);
      }
    }
  }

  /** `nextVideoId`: the id the next step would play, when there is one. */
  function NextVideoId(pvs: seq<TikTokVideo>, index: int): Option<string> {
    if 0 <= index < |pvs| - 1 then Some(pvs[index + 1].id) else None
  }

  /** Where `handleNextVideo` moves the index in a list of `len` videos. */
  function NextIndex(index: int, len: nat): int {
    if index < len - 1 then index + 1 else index
  }

  function Max(a: int, b: int): int {
    if a >= b then a else b
  }

  /** The index names a video of a list of `len`, or is 0 for an empty list. */
  predicate InRange(index: int, len: nat) {
    0 <= index && (len == 0 || index < len)
  }

  /** A step forward keeps an index that names a video naming one. */
  lemma NextStaysInRange(index: int, len: nat)
    ensures InRange(index, len) ==> InRange(NextIndex(index, len), len)
  {
  }

  /** The announced next video is the one `handleNextVideo` moves to. */
  lemma NextVideoIdIsNextStep(pvs: seq<TikTokVideo>, index: int)
    requires InRange(index, |pvs|)
    ensures NextVideoId(pvs, index).Some? <==> NextIndex(index, |pvs|) != index
    ensures NextVideoId(pvs, index).Some? ==>
      NextVideoId(pvs, index).value == pvs[NextIndex(index, |pvs|)].id
  {
  }

  /** The text after the last `/` (`split('/').pop()`). */
  function AfterLastSlash(s: string): (r: string)
    ensures |r| <= |s| && r == s[|s| - |r|..]
    ensures '/' !in r
    ensures |r| == |s| || s[|s| - |r| - 1] == '/'
  {
    if s == [] then []
    else if s[|s| - 1] == '/' then []
    else
      var r := AfterLastSlash(s[..|s| - 1]);
      assert s[..|s| - 1][|s| - 1 - |r|..] + [s[|s| - 1]] == s[|s| - 1 - |r|..];
      r + [s[|s| - 1]]
  }

  /** The text before the first `?` (`split('?')[0]`). */
  function BeforeFirstQuestion(s: string): (r: string)
    ensures |r| <= |s| && r == s[..|r|]
    ensures '?' !in r
    ensures |r| == |s| || s[|r|] == '?'
  {
    if s == [] || s[0] == '?' then []
    else
      var r := BeforeFirstQuestion(s[1..]);
      assert [s[0]] + s[1..][..|r|] == s[..|r| + 1];
      [s[0]] + r
  }

  /** The id put into the player's embed URL: neither `/` nor `?` survives. */
  function EmbedId(url: string): (r: string)
    ensures '/' !in r && '?' !in r
  {
    BeforeFirstQuestion(AfterLastSlash(url))
  }

  /** The `src` of the player frame. */
  function EmbedSrc(url: string): string {
    "https://www.tiktok.com/embed/v2/" + EmbedId(url) + "?autoplay=1"
  }

  /**
   * For a URL whose last segment is `id`, optionally followed by a query, the
   * embed id is `id`.
   */
  lemma EmbedIdOfLastSegment(prefix: string, id: string, query: string)
    requires '/' !in id && '?' !in id && '/' !in query
    ensures EmbedId(prefix + "/" + id) == id
    ensures EmbedId(prefix + "/" + id + "?" + query) == id
  {
    SuffixAfterSlash(prefix, id);
    SuffixAfterSlash(prefix, id + "?" + query);
    assert prefix + "/" + id + "?" + query == prefix + "/" + (id + "?" + query);
    assert (id + "?" + query)[..|id|] == id;
    assert (id + "?" + query)[|id|] == '?';
    QuestionCut(id + "?" + query, |id|);
    QuestionCut(id, |id|);
  }

  /** The last segment is what follows the final slash. */
  lemma {:induction false} SuffixAfterSlash(prefix: string, tail: string)
    requires '/' !in tail
    ensures AfterLastSlash(prefix + "/" + tail) == tail
  {
    var s := prefix + "/" + tail;
    if tail != [] {
      var init := tail[..|tail| - 1];
      assert s[..|s| - 1] == prefix + "/" + init;
      assert tail[|tail| - 1] in tail;
      SuffixAfterSlash(prefix, init);
      assert init + [tail[|tail| - 1]] == tail;
    }
  }

  /** Cutting at the first `?` stops at index `n` when that is the first `?` or the end. */
  lemma QuestionCut(s: string, n: nat)
    requires n <= |s| && '?' !in s[..n] && (n == |s| || s[n] == '?')
    ensures BeforeFirstQuestion(s) == s[..n]
  {
  }

  /** The number of videos a member list resolves to is the number of its known ids. */
  lemma ResolvedCount(ids: seq<string>, vs: seq<TikTokVideo>)
    ensures |ResolveMembers(ids, vs)| == |KnownMembers(ids, vs)|
  {
    assert |VideoIds(ResolveMembers(ids, vs))| == |ResolveMembers(ids, vs)|;
  }

  /** Purging a known id from the members purges it from the known members. */
  lemma KnownAfterPurge(ids: seq<string>, vs: seq<TikTokVideo>, videoId: string)
    ensures multiset(KnownMembers(PurgeId(ids, videoId), vs)) == multiset(KnownMembers(ids, vs))[videoId := 0]
  {
    var before := KnownMembers(ids, vs);
    var after := KnownMembers(PurgeId(ids, videoId), vs);
    forall x
      ensures multiset(after)[x] == multiset(before)[videoId := 0][x]
    {
      assert multiset(after)[x] == if x in VideoIds(vs) then multiset(PurgeId(ids, videoId))[x] else 0;
      assert multiset(before)[x] == if x in VideoIds(vs) then multiset(ids)[x] else 0;
    }
  }

  /** Taking away a value that occurs once makes a multiset one smaller. */
  lemma DropSingle<T>(m: multiset<T>, x: T)
    requires m[x] == 1
    ensures |m[x := 0]| == |m| - 1
  {
    assert m == m[x := 0] + multiset{x};
  }

  /**
   * Removing a member that occurs once in the list and names a library video
   * shortens the resolved list by exactly one.
   */
  lemma RemovalShrinksByOne(ids: seq<string>, vs: seq<TikTokVideo>, videoId: string)
    requires NoDuplicates(ids) && videoId in ids && videoId in VideoIds(vs)
    ensures |ResolveMembers(PurgeId(ids, videoId), vs)| == |ResolveMembers(ids, vs)| - 1
  {
    ResolvedCount(ids, vs);
    ResolvedCount(PurgeId(ids, videoId), vs);
    var before := KnownMembers(ids, vs);
    assert multiset(ids)[videoId] == 1 by {
      NoDuplicatesCounts(ids);
    }
    assert multiset(before)[videoId] == 1;
    KnownAfterPurge(ids, vs, videoId);
    DropSingle(multiset(before), videoId);
  }

  /**
   * The page's state: the store it reads, the playlist id from the route, the
   * current index and the edit drafts and dialog flags.
   */
  class Player {
    const store: AppState
    const playlistId: string
    var index: int
    var editOpen: bool
    var deleteOpen: bool
    var draftName: string
    var draftDescription: string

    /** The page opens on the first video with both dialogs closed. */
    constructor (store: AppState, playlistId: string)
      ensures this.store == store && this.playlistId == playlistId
      ensures index == 0 && !editOpen && !deleteOpen && draftName == "" && draftDescription == ""
    {
      this.store := store;
      this.playlistId := playlistId;
      index, editOpen, deleteOpen, draftName, draftDescription := 0, false, false, "", "";
    }

    /** The playlist the route names, if it exists. */
    function Current(): Option<Playlist>
      reads store
    {
      FindPlaylist(store.playlists, playlistId)
    }

    /** `playlistVideos`; empty while the page shows "not found". */
    function Videos(): seq<TikTokVideo>
      reads store
    {
      match Current()
      case None => []
      case Some(p) => ResolveMembers(p.videos, store.videos)
    }

    /** The effect that copies the playlist's name and description into the drafts. */
    method SyncDrafts()
      modifies this
      ensures Current().Some? ==>
        draftName == Current().value.name && draftDescription == Current().value.description
      ensures Current().None? ==> draftName == old(draftName) && draftDescription == old(draftDescription)
      ensures index == old(index) && editOpen == old(editOpen) && deleteOpen == old(deleteOpen)
    {
      match Current()
      case Some(p) =>
        draftName, draftDescription := p.name, p.description;
      case None =>
    }

    /** `handleNextVideo`: never moves past the last video. */
    method Next()
      modifies this
      ensures index == NextIndex(old(index), old(|Videos()|))
      ensures old(InRange(index, |Videos()|)) ==> InRange(index, old(|Videos()|))
      ensures editOpen == old(editOpen) && deleteOpen == old(deleteOpen)
      ensures draftName == old(draftName) && draftDescription == old(draftDescription)
    {
      var len := |Videos()|;
      NextStaysInRange(index, len);
      index := NextIndex(index, len);
    }

    /** The "previous" button: one step back, never below 0. */
    method Previous()
      modifies this
      ensures index == Max(0, old(index) - 1)
      ensures forall len: nat :: InRange(old(index), len) ==> InRange(index, len)
      ensures editOpen == old(editOpen) && deleteOpen == old(deleteOpen)
      ensures draftName == old(draftName) && draftDescription == old(draftDescription)
    {
      index := Max(0, index - 1);
    }

    /** Clicking the k-th item of the list. */
    method Select(k: nat)
      requires k < |Videos()|
      modifies this
      ensures index == k && InRange(index, |Videos()|)
      ensures editOpen == old(editOpen) && deleteOpen == old(deleteOpen)
      ensures draftName == old(draftName) && draftDescription == old(draftDescription)
    {
      index := k;
    }

    /**
     * `handleRemoveVideo`: the store call, then a clamp that uses the length
     * from before the removal. When the removed video occurs once in the list,
     * an index that named a video still names one.
     */
    method HandleRemoveVideo(videoId: string, now: int)
      requires Current().Some?
      modifies this, store
      ensures store.playlists == RemoveMember(old(store.playlists), playlistId, videoId, now)
      ensures store.videos == old(store.videos) && store.user == old(store.user)
      ensures index == if old(index) >= old(|Videos()|) - 1 then Max(0, old(|Videos()|) - 2) else old(index)
      ensures old(InRange(index, |Videos()|)) && old(NoDuplicates(Current().value.videos))
        && old(videoId in Current().value.videos) && videoId in VideoIds(store.videos)
        ==> InRange(index, |Videos()|)
      ensures editOpen == old(editOpen) && deleteOpen == old(deleteOpen)
      ensures draftName == old(draftName) && draftDescription == old(draftDescription)
    {
      var p := Current().value;
      var len := |Videos()|;
      ghost var ps := store.playlists;
      store.RemoveVideoFromPlaylist(p.id, videoId, now);
      RemoveMemberKeepsFound(ps, playlistId, videoId, now);
      if NoDuplicates(p.videos) && videoId in p.videos && videoId in VideoIds(store.videos) {
        RemovalShrinksByOne(p.videos, store.videos, videoId);
      }
      if index >= len - 1 {
        index := Max(0, len - 2);
      }
    }

    /** `handleEditPlaylist`: store the drafts as the playlist's name and description. */
    method HandleEditPlaylist(now: int)
      requires Current().Some?
      modifies this, store
      ensures store.playlists == UpdatePlaylists(old(store.playlists), playlistId,
        PlaylistUpdate(None, Some(draftName), Some(draftDescription), None, None, None), now)
      ensures store.videos == old(store.videos) && store.user == old(store.user)
      ensures !editOpen && deleteOpen == old(deleteOpen) && index == old(index)
      ensures draftName == old(draftName) && draftDescription == old(draftDescription)
    {
      var p := Current().value;
      store.UpdatePlaylist(p.id, PlaylistUpdate(None, Some(draftName), Some(draftDescription), None, None, None), now);
      editOpen := false;
    }

    /** `handleDeletePlaylist`: the playlist leaves the store. */
    method HandleDeletePlaylist()
      requires Current().Some?
      modifies store
      ensures store.playlists == WithoutPlaylist(old(store.playlists), playlistId)
      ensures store.videos == old(store.videos) && store.user == old(store.user)
      ensures Current().None?
    {
      var p := Current().value;
      store.DeletePlaylist(p.id);
    }
  }

  /** After a removal the route still finds its playlist, with the video purged and the time stamp set. */
  lemma RemoveMemberKeepsFound(ps: seq<Playlist>, playlistId: string, videoId: string, now: int)
    requires FindPlaylist(ps, playlistId).Some?
    ensures var p := FindPlaylist(ps, playlistId).value;
      FindPlaylist(RemoveMember(ps, playlistId, videoId, now), playlistId)
        == Some(p.(videos := PurgeId(p.videos, videoId), updatedAt := now))
  {
    RemoveMemberEffect(ps, playlistId, videoId, now);
  }
}
