/**
 * A library tile of src/components/VideoCard.tsx: the duration label and the
 * edit, add-to-playlist and delete dialogs. The menu anchor only decides where
 * the menu is drawn and is not modelled.
 */
module VideoCard {
  import opened Types
  import opened Seqs
  import opened Text
  import opened AppContext

  // ------------------------------------------------ the duration label

  /** JavaScript `%`: the remainder takes the sign of the dividend. */
  function JsRem(a: int, b: int): (r: int)
    requires b > 0
    ensures a >= 0 ==> r == a % b
    ensures a < 0 ==> -b < r <= 0 && r == -((-a) % b)
  {
    if a >= 0 then a % b else -((-a) % b)
  }

  /** `padStart(2, '0')`: zeros in front up to two characters; longer strings are kept. */
  function PadStart2(s: string): (r: string)
    ensures |s| >= 2 ==> r == s
    ensures |s| < 2 ==> |r| == 2 && r[2 - |s|..] == s && forall i :: 0 <= i < 2 - |s| ==> r[i] == '0'
  {
    if |s| >= 2 then s else seq(2 - |s|, _ => '0') + s
  }

  /**
   * `formatDuration`: `Math.floor(seconds / 60)`, a colon, and `seconds % 60`
   * padded to two characters. Dafny's `/` by a positive divisor is the floor.
   */
  function FormatDuration(seconds: int): string {
    IntToString(seconds / 60) + ":" + PadStart2(IntToString(JsRem(seconds, 60)))
  }

  /** Reads a label `m:ss` back: digits, one colon, digits; the minutes and the seconds. */
  function ParseClock(s: string): Option<(nat, nat)> {
    match IndexOf(s, ':')
    case None => None
    case Some(k) => ClockValue(s[..k], s[k + 1..])
  }

  /** The values of the text before and after the colon, when both are non-empty digit runs. */
  function ClockValue(minutes: string, secs: string): Option<(nat, nat)> {
    if minutes != [] && secs != []
      && (forall i :: 0 <= i < |minutes| ==> IsDigitChar(minutes[i]))
      && (forall i :: 0 <= i < |secs| ==> IsDigitChar(secs[i]))
    then Some((ParseNat(minutes), ParseNat(secs)))
    else None
  }

  /** The label of `minutes` and `secs`, both non-negative. */
  function Clock(minutes: nat, secs: nat): string {
    NatToString(minutes) + ":" + PadStart2(NatToString(secs))
  }

  /** A non-negative duration splits into whole minutes and the seconds left over. */
  lemma FormatNonNegative(seconds: int)
    requires seconds >= 0
    ensures FormatDuration(seconds) == Clock(seconds / 60, seconds % 60)
    ensures seconds == seconds / 60 * 60 + seconds % 60 && seconds % 60 < 60
  {
  }

  /** The seconds part of a label: always two digits, whose value is the seconds count. */
  lemma PaddedSeconds(n: nat)
    requires n < 60
    ensures var p := PadStart2(NatToString(n));
      && |p| == 2 && IsDigitChar(p[0]) && IsDigitChar(p[1])
      && (forall i :: 0 <= i < |p| ==> IsDigitChar(p[i])) && ParseNat(p) == n
  {
    var p := PadStart2(NatToString(n));
    ParseNatToString(n);
    if n < 10 {
      assert p == ['0', DigitChar(n)];
      assert p[..1] == ['0'];
      assert ParseNat(p[..1]) == 0 by {
        assert p[..1][..0] == [];
      }
    } else {
      assert |NatToString(n)| == 2 by {
        assert NatToString(n) == NatToString(n / 10) + [DigitChar(n % 10)];
        assert n / 10 < 10;
      }
    }
  }

  /** In digits, a colon, more text: the first colon is the one after the digits. */
  lemma ColonAfterDigits(m: string, p: string)
    requires forall i :: 0 <= i < |m| ==> IsDigitChar(m[i])
    ensures IndexOf(m + ":" + p, ':') == Some(|m|)
  {
    var f := m + ":" + p;
    assert f[..|m|] == m && f[|m|] == ':';
    assert ':' !in m by {
      forall i | 0 <= i < |m| ensures m[i] != ':' {
        assert IsDigitChar(m[i]);
      }
    }
  }

  /** A colon between two runs of digits reads back as minutes and seconds. */
  lemma ParseClockParts(m: string, p: string)
    requires m != [] && p != []
    requires forall i :: 0 <= i < |m| ==> IsDigitChar(m[i])
    requires forall i :: 0 <= i < |p| ==> IsDigitChar(p[i])
    ensures ParseClock(m + ":" + p) == Some((ParseNat(m), ParseNat(p)))
  {
    SplitAtColon(m, p);
  }

  /** After a digit run and a colon, the label splits into exactly those two parts. */
  lemma SplitAtColon(m: string, p: string)
    requires forall i :: 0 <= i < |m| ==> IsDigitChar(m[i])
    ensures ParseClock(m + ":" + p) == ClockValue(m, p)
  {
    var f := m + ":" + p;
    ColonAfterDigits(m, p);
    assert f[..|m|] == m && f[|m| + 1..] == p;
  }

  /** Reading a label back gives its minutes and seconds. */
  lemma ClockRoundTrip(minutes: nat, secs: nat)
    requires secs < 60
    ensures ParseClock(Clock(minutes, secs)) == Some((minutes, secs))
  {
    var m := NatToString(minutes);
    var p := PadStart2(NatToString(secs));
    PaddedSeconds(secs);
    ParseNatToString(minutes);
    ParseClockParts(m, p);
  }

  /**
   * Reading the label of a non-negative duration back gives the duration:
   * minutes times 60 plus seconds below 60.
   */
  lemma FormatDurationRoundTrip(seconds: int)
    requires seconds >= 0
    ensures var c := ParseClock(FormatDuration(seconds));
      c.Some? && c.value.1 < 60 && c.value.0 * 60 + c.value.1 == seconds
  {
    FormatNonNegative(seconds);
    ClockRoundTrip(seconds / 60, seconds % 60);
  }

  /** A negative duration keeps JavaScript's signs: `-5` seconds shows as `-1:-5`. */
  lemma NegativeDuration()
    ensures FormatDuration(-5) == "-1:-5"
  {
    assert -5 / 60 == -1;
    assert NatToString(1) == "1" && NatToString(5) == "5";
  }

  // ------------------------------------------------ the tile

  /** The update `handleEditSave` sends: the title alone. */
  function TitleOnly(title: string): VideoUpdate {
    VideoUpdate(None, Some(title), None, None, None, None)
  }

  /** A title-only update replaces the title of the matching videos and nothing else. */
  lemma TitleOnlyEffect(vs: seq<TikTokVideo>, id: string, title: string)
    ensures var r := UpdateVideos(vs, id, TitleOnly(title));
      && |r| == |vs|
      && (forall i :: 0 <= i < |vs| ==> r[i] == if vs[i].id == id then vs[i].(title := title) else vs[i])
  {
  }

  /**
   * A video tile. The grid renders one per video, keyed by its id, and passes
   * the store's current record on every render; the tile keeps the id and reads
   * the record, `Current()`, from the store.
   */
  class Card {
    const store: AppState
    const videoId: string
    var editOpen: bool
    var playlistOpen: bool
    var deleteOpen: bool
    var editTitle: string

    /** The record the tile is rendered with: the library video with its id. */
    function Current(): Option<TikTokVideo>
      reads store
    {
      FindVideo(store.videos, videoId)
    }

    /** The title draft starts as the video's title; all dialogs closed. */
    constructor (store: AppState, videoId: string)
      requires FindVideo(store.videos, videoId).Some?
      ensures this.store == store && this.videoId == videoId
      ensures !editOpen && !playlistOpen && !deleteOpen && editTitle == Current().value.title
    {
      this.store := store;
      this.videoId := videoId;
      editOpen, playlistOpen, deleteOpen := false, false, false;
      editTitle := FindVideo(store.videos, videoId).value.title;
    }

    method HandleEditClick()
      modifies this
      ensures editOpen && editTitle == old(editTitle)
      ensures playlistOpen == old(playlistOpen) && deleteOpen == old(deleteOpen)
    {
      editOpen := true;
    }

    /**
     * Cancel: close and put the draft back to the video's title as it is now,
     * a title saved earlier included. The tile is only shown while its video
     * is in the library.
     */
    method HandleEditClose()
      requires Current().Some?
      modifies this
      ensures !editOpen && editTitle == Current().value.title
      ensures playlistOpen == old(playlistOpen) && deleteOpen == old(deleteOpen)
    {
      editOpen := false;
      editTitle := Current().value.title;
    }

    method ChangeTitle(value: string)
      modifies this
      ensures editTitle == value && editOpen == old(editOpen)
      ensures playlistOpen == old(playlistOpen) && deleteOpen == old(deleteOpen)
    {
      editTitle := value;
    }

    /**
     * `handleEditSave`: the draft title, untrimmed and possibly empty, replaces
     * the title of every library video with this id; nothing else changes.
     * Afterwards the current record carries that title.
     */
    method HandleEditSave()
      modifies this, store
      ensures store.videos == UpdateVideos(old(store.videos), videoId, TitleOnly(editTitle))
      ensures |store.videos| == |old(store.videos)|
      ensures forall i :: 0 <= i < |store.videos| ==>
        store.videos[i] == if old(store.videos[i]).id == videoId
          then old(store.videos[i]).(title := editTitle) else old(store.videos[i])
      ensures old(Current()).Some? ==> Current().Some? && Current().value.title == editTitle
      ensures store.playlists == old(store.playlists) && store.user == old(store.user)
      ensures !editOpen && editTitle == old(editTitle)
      ensures playlistOpen == old(playlistOpen) && deleteOpen == old(deleteOpen)
    {
      TitleOnlyEffect(store.videos, videoId, editTitle);
      FindVideoAfterUpdate(store.videos, videoId, TitleOnly(editTitle));
      store.UpdateVideo(videoId, TitleOnly(editTitle));
      editOpen := false;
    }

    method HandlePlaylistClick()
      modifies this
      ensures playlistOpen && editOpen == old(editOpen) && deleteOpen == old(deleteOpen)
      ensures editTitle == old(editTitle)
    {
      playlistOpen := true;
    }

    method HandlePlaylistClose()
      modifies this
      ensures !playlistOpen && editOpen == old(editOpen) && deleteOpen == old(deleteOpen)
      ensures editTitle == old(editTitle)
    {
      playlistOpen := false;
    }

    /**
     * `handleAddToPlaylist`: afterwards every playlist with that id lists this
     * video, each at most once if no playlist listed a video twice before.
     */
    method HandleAddToPlaylist(playlistId: string, now: int)
      modifies this, store
      ensures store.playlists == AppendMember(old(store.playlists), playlistId, videoId, now)
      ensures forall i :: 0 <= i < |store.playlists| && store.playlists[i].id == playlistId ==>
        videoId in store.playlists[i].videos
      ensures old(store.MembersDistinct()) ==> store.MembersDistinct()
      ensures store.videos == old(store.videos) && store.user == old(store.user)
      ensures !playlistOpen && editOpen == old(editOpen) && deleteOpen == old(deleteOpen)
      ensures editTitle == old(editTitle)
    {
      AppendMemberEffect(store.playlists, playlistId, videoId, now);
      store.AddVideoToPlaylist(playlistId, videoId, now);
      playlistOpen := false;
    }

    method HandleDeleteClick()
      modifies this
      ensures deleteOpen && editOpen == old(editOpen) && playlistOpen == old(playlistOpen)
      ensures editTitle == old(editTitle)
    {
      deleteOpen := true;
    }

    method HandleDeleteClose()
      modifies this
      ensures !deleteOpen && editOpen == old(editOpen) && playlistOpen == old(playlistOpen)
      ensures editTitle == old(editTitle)
    {
      deleteOpen := false;
    }

    /** `handleDeleteConfirm`: the video leaves the library and every playlist. */
    method HandleDeleteConfirm()
      modifies this, store
      ensures store.videos == WithoutVideo(old(store.videos), videoId)
      ensures store.playlists == PurgeFromAll(old(store.playlists), videoId)
      ensures videoId !in VideoIds(store.videos) && Current().None?
      ensures forall i :: 0 <= i < |store.playlists| ==> videoId !in store.playlists[i].videos
      ensures store.user == old(store.user)
      ensures !deleteOpen && editOpen == old(editOpen) && playlistOpen == old(playlistOpen)
      ensures editTitle == old(editTitle)
    {
      store.DeleteVideo(videoId);
      deleteOpen := false;
    }
  }
}
