/**
 * The "create playlist" dialog of src/components/PlaylistForm.tsx: the name,
 * description, error and open flags, and the submit handler that validates the
 * name and hands a new record to the store. `Math.random` is the parameter `id`;
 * the two separate `new Date()` readings are the parameters `created` and
 * `updated`, which need not be equal.
 */
module PlaylistForm {
  import opened Types
  import opened Seqs
  import opened Text
  import opened AppContext

  const NameRequired: string := "Playlist name is required"

  /** The record `handleSubmit` builds: trimmed texts, no members, one clock reading per stamp. */
  function NewPlaylist(id: string, name: string, description: string, created: int, updated: int): Playlist {
    Playlist(id, Trim(name), Trim(description), [], created, updated)
  }

  /**
   * A record built from a name that is not blank has a non-empty trimmed name
   * that would pass the check again, a description that trimming leaves alone,
   * no members, and each stamp taken from its own clock reading.
   */
  lemma NewPlaylistValid(id: string, name: string, description: string, created: int, updated: int)
    requires !IsBlank(name)
    ensures var p := NewPlaylist(id, name, description, created, updated);
      && p.name != [] && !IsBlank(p.name) && Trim(p.name) == p.name
      && Trim(p.description) == p.description
      && p.videos == [] && NoDuplicates(p.videos)
      && p.createdAt == created && p.updatedAt == updated
  {
    TrimIdempotent(name);
    TrimIdempotent(description);
  }

  class Form {
    const store: AppState
    var open: bool
    var name: string
    var description: string
    var nameError: string

    constructor (store: AppState)
      ensures this.store == store
      ensures !open && name == "" && description == "" && nameError == ""
    {
      this.store := store;
      open, name, description, nameError := false, "", "", "";
    }

    method HandleOpen()
      modifies this
      ensures open
      ensures name == old(name) && description == old(description) && nameError == old(nameError)
    {
      open := true;
    }

    method ResetForm()
      modifies this
      ensures name == "" && description == "" && nameError == ""
      ensures open == old(open)
    {
      name, description, nameError := "", "", "";
    }

    /** Cancel: close and reset, without a store call. */
    method HandleClose()
      modifies this
      ensures !open && name == "" && description == "" && nameError == ""
    {
      open := false;
      ResetForm();
    }

    /** Typing in the name field: a name that is not blank clears the error. */
    method ChangeName(value: string)
      modifies this
      ensures name == value
      ensures nameError == if IsBlank(value) then old(nameError) else ""
      ensures open == old(open) && description == old(description)
    {
      name := value;
      if !IsBlank(value) {
        nameError := "";
      }
    }

    method ChangeDescription(value: string)
      modifies this
      ensures description == value
      ensures open == old(open) && name == old(name) && nameError == old(nameError)
    {
      description := value;
    }

    /**
     * `handleSubmit`: a blank name only sets the error; otherwise the new record
     * is appended to the store and the dialog closes with the form reset. The
     * store's rule that no playlist lists a video twice is kept.
     */
    method HandleSubmit(id: string, created: int, updated: int)
      modifies this, store
      ensures IsBlank(old(name)) ==>
        && nameError == NameRequired
        && store.playlists == old(store.playlists)
        && open == old(open) && name == old(name) && description == old(description)
      ensures !IsBlank(old(name)) ==>
        && store.playlists == old(store.playlists) + [NewPlaylist(id, old(name), old(description), created, updated)]
        && !open && name == "" && description == "" && nameError == ""
      ensures store.videos == old(store.videos) && store.user == old(store.user)
      ensures old(store.MembersDistinct()) ==> store.MembersDistinct()
    {
      if IsBlank(name) {
        nameError := NameRequired;
        return;
      }
      var p := NewPlaylist(id, name, description, created, updated);
      store.AddPlaylist(p);
      HandleClose();
    }
  }
}
