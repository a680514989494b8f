/**
 * The records of src/types.ts. Timestamps (`Date`) are integers; a key that a
 * `Partial<...>` update may leave out is an `Option`, with `None` for "absent".
 */
module Types {

  datatype Option<+T> = None | Some(value: T) {
    function GetOr(default: T): T {
      match this
      case Some(v) => v
      case None => default
    }
  }

  datatype TikTokVideo = TikTokVideo(
    id: string,
    url: string,
    title: string,
    author: string,
    thumbnail: string,
    duration: int,
    addedAt: int)

  /** `videos` holds the ids of member videos, in insertion order. */
  datatype Playlist = Playlist(
    id: string,
    name: string,
    description: string,
    videos: seq<string>,
    createdAt: int,
    updatedAt: int)

  /** `autoplay` and `muteVideos` are optional keys of the stored preferences. */
  datatype UserPreferences = UserPreferences(
    darkMode: bool,
    autoplay: Option<bool>,
    muteVideos: Option<bool>)

  datatype User = User(id: string, name: string, email: string, preferences: UserPreferences)

  /** `Partial<Omit<TikTokVideo, 'id'>>`: an update never names the id. */
  datatype VideoUpdate = VideoUpdate(
    url: Option<string>,
    title: Option<string>,
    author: Option<string>,
    thumbnail: Option<string>,
    duration: Option<int>,
    addedAt: Option<int>)

  /** `Partial<Playlist>`: every key, the id included, may be given. */
  datatype PlaylistUpdate = PlaylistUpdate(
    id: Option<string>,
    name: Option<string>,
    description: Option<string>,
    videos: Option<seq<string>>,
    createdAt: Option<int>,
    updatedAt: Option<int>)

  /** `Partial<UserPreferences>` */
  datatype PreferencesUpdate = PreferencesUpdate(
    darkMode: Option<bool>,
    autoplay: Option<bool>,
    muteVideos: Option<bool>)

  /** The ids of a sequence of videos, in order. */
  function VideoIds(vs: seq<TikTokVideo>): (ids: seq<string>)
    ensures |ids| == |vs|
    ensures forall i :: 0 <= i < |vs| ==> ids[i] == vs[i].id
  {
    seq(|vs|, i requires 0 <= i < |vs| => vs[i].id)
  }

  /** The ids of a sequence of playlists, in order. */
  function PlaylistIds(ps: seq<Playlist>): (ids: seq<string>)
    ensures |ids| == |ps|
    ensures forall i :: 0 <= i < |ps| ==> ids[i] == ps[i].id
  {
    seq(|ps|, i requires 0 <= i < |ps| => ps[i].id)
  }
}
