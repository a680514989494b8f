/**
 * A playlist tile of src/components/PlaylistCard.tsx: its cover thumbnail and
 * count label, and the edit and delete dialogs with their drafts and error.
 * The grid renders one tile per playlist of the store, keyed by its id, and
 * passes the store's current record on every render; the tile therefore keeps
 * the id and reads the record, `Current()`, from the store.
 */
module PlaylistCard {
  import opened Types
  import opened Text
  import opened AppContext
  import PlaylistForm

  /** `${n} ${n === 1 ? 'video' : 'videos'}` */
  function VideoCountLabel(n: nat): string {
    NatToString(n) + (if n == 1 then " video" else " videos")
  }

  /** The label shows the count itself, and the plural exactly when the count is not 1. */
  lemma VideoCountLabelReadsBack(n: nat)
    ensures var shown := VideoCountLabel(n);
      && |NatToString(n)| < |shown|
      && ParseNat(shown[..|NatToString(n)|]) == n
      && (shown[|shown| - 1] == 's' <==> n != 1)
  {
    var shown := VideoCountLabel(n);
    assert shown[..|NatToString(n)|] == NatToString(n);
    ParseNatToString(n);
  }

  /**
   * The cover: the thumbnail of the library video named by the first member,
   * or `''`. The source's `|| ''` fallback maps an empty thumbnail to the same
   * empty string, so it changes nothing.
   */
  function Thumbnail(p: Playlist, vs: seq<TikTokVideo>): (r: string)
    ensures p.videos == [] ==> r == ""
    ensures p.videos != [] && p.videos[0] !in VideoIds(vs) ==> r == ""
    ensures p.videos != [] && FindVideo(vs, p.videos[0]).Some? ==>
      r == FindVideo(vs, p.videos[0]).value.thumbnail
    ensures r != "" ==> exists i :: 0 <= i < |vs| && vs[i].id == p.videos[0] && vs[i].thumbnail == r
  {
    if |p.videos| > 0 then
      match FindVideo(vs, p.videos[0])
      case None => ""
      case Some(v) => v.thumbnail
    else ""
  }

  /** The update a successful save sends: trimmed name and trimmed description. */
  function SaveUpdate(name: string, description: string): PlaylistUpdate {
    PlaylistUpdate(None, Some(Trim(name)), Some(Trim(description)), None, None, None)
  }

  /** A saved name is not blank and is already trimmed: saving again would store the same name. */
  lemma SavedNameValid(name: string, description: string)
    requires !IsBlank(name)
    ensures var u := SaveUpdate(name, description);
      && u.name.Some? && !IsBlank(u.name.value) && Trim(u.name.value) == u.name.value
      && u.description.Some? && Trim(u.description.value) == u.description.value
  {
    TrimIdempotent(name);
    TrimIdempotent(description);
  }

  class Card {
    const store: AppState
    const playlistId: string
    var editOpen: bool
    var deleteOpen: bool
    var editName: string
    var editDescription: string
    var nameError: string

    /** The record the tile is rendered with: the store's playlist with its id. */
    function Current(): Option<Playlist>
      reads store
    {
      FindPlaylist(store.playlists, playlistId)
    }

    /** The drafts start as the playlist's own name and description. */
    constructor (store: AppState, playlistId: string)
      requires FindPlaylist(store.playlists, playlistId).Some?
      ensures this.store == store && this.playlistId == playlistId
      ensures !editOpen && !deleteOpen && nameError == ""
      ensures editName == Current().value.name && editDescription == Current().value.description
    {
      this.store := store;
      this.playlistId := playlistId;
      editOpen, deleteOpen, nameError := false, false, "";
      var p := FindPlaylist(store.playlists, playlistId).value;
      editName, editDescription := p.name, p.description;
    }

    /** The drafts hold the current record's values and no error is shown. */
    predicate Pristine()
      reads this, store
    {
      && Current().Some?
      && editName == Current().value.name
      && editDescription == Current().value.description
      && nameError == ""
    }

    /**
     * Closing a dialog from outside: both dialogs close and the edit form is
     * reset to the record as it is now, a name saved earlier included. The
     * tile is only shown while its playlist is in the store.
     */
    method HandleDialogClose()
      requires Current().Some?
      modifies this
      ensures !editOpen && !deleteOpen && Pristine()
    {
      var p := Current().value;
      editOpen, deleteOpen := false, false;
      editName, editDescription, nameError := p.name, p.description, "";
    }

    method HandleEditClick()
      modifies this
      ensures editOpen && deleteOpen == old(deleteOpen)
      ensures editName == old(editName) && editDescription == old(editDescription) && nameError == old(nameError)
    {
      editOpen := true;
    }

    /** Cancel in the edit dialog: close it and reset the form to the current record. */
    method HandleEditClose()
      requires Current().Some?
      modifies this
      ensures !editOpen && deleteOpen == old(deleteOpen) && Pristine()
    {
      var p := Current().value;
      editOpen := false;
      editName, editDescription, nameError := p.name, p.description, "";
    }

    /** Typing in the name field: a name that is not blank clears the error. */
    method ChangeName(value: string)
      modifies this
      ensures editName == value
      ensures nameError == if IsBlank(value) then old(nameError) else ""
      ensures editOpen == old(editOpen) && deleteOpen == old(deleteOpen) && editDescription == old(editDescription)
    {
      editName := value;
      if !IsBlank(value) {
        nameError := "";
      }
    }

    method ChangeDescription(value: string)
      modifies this
      ensures editDescription == value
      ensures editOpen == old(editOpen) && deleteOpen == old(deleteOpen)
      ensures editName == old(editName) && nameError == old(nameError)
    {
      editDescription := value;
    }

    /**
     * `handleEditSave`: a blank name sets the error and changes nothing else;
     * otherwise the trimmed drafts go to the store and the dialog closes.
     * Afterwards the current record carries the trimmed name, so a later
     * cancel resets the draft to it.
     */
    method HandleEditSave(now: int)
      modifies this, store
      ensures IsBlank(old(editName)) ==>
        && nameError == PlaylistForm.NameRequired
        && store.playlists == old(store.playlists) && editOpen == old(editOpen)
      ensures !IsBlank(old(editName)) ==>
        && store.playlists == UpdatePlaylists(old(store.playlists), playlistId,
             SaveUpdate(old(editName), old(editDescription)), now)
        && !editOpen && nameError == old(nameError)
      ensures !IsBlank(old(editName)) && old(Current()).Some? ==>
        && Current().Some?
        && Current().value.name == Trim(old(editName))
        && Current().value.description == Trim(old(editDescription))
      ensures store.videos == old(store.videos) && store.user == old(store.user)
      ensures deleteOpen == old(deleteOpen)
      ensures editName == old(editName) && editDescription == old(editDescription)
    {
      if IsBlank(editName) {
        nameError := PlaylistForm.NameRequired;
        return;
      }
      FindPlaylistAfterUpdate(store.playlists, playlistId, SaveUpdate(editName, editDescription), now);
      store.UpdatePlaylist(playlistId, SaveUpdate(editName, editDescription), now);
      editOpen := false;
    }

    method HandleDeleteClick()
      modifies this
      ensures deleteOpen && editOpen == old(editOpen) && editName == old(editName)
      ensures editDescription == old(editDescription) && nameError == old(nameError)
    {
      deleteOpen := true;
    }

    method HandleDeleteClose()
      modifies this
      ensures !deleteOpen && editOpen == old(editOpen) && editName == old(editName)
      ensures editDescription == old(editDescription) && nameError == old(nameError)
    {
      deleteOpen := false;
    }

    /** `handleDeleteConfirm`: this tile's playlist leaves the store. */
    method HandleDeleteConfirm()
      modifies this, store
      ensures store.playlists == WithoutPlaylist(old(store.playlists), playlistId)
      ensures playlistId !in PlaylistIds(store.playlists) && Current().None?
      ensures store.videos == old(store.videos) && store.user == old(store.user)
      ensures !deleteOpen && editOpen == old(editOpen) && editName == old(editName)
      ensures editDescription == old(editDescription) && nameError == old(nameError)
    {
      store.DeletePlaylist(playlistId);
      deleteOpen := false;
    }
  }
}
