/**
 * The "add video" form of src/components/AddVideoForm.tsx: the URL field, the
 * loading flag and the error text. The submit handler awaits a resolver
 * (`extractVideoInfo`) between two steps; the model splits it into the check
 * before the call (`HandleSubmit`, which returns the URL the resolver is
 * called with) and the two ways the call ends (`ResolverSucceeded`,
 * `ResolverFailed`).
 */
module AddVideoForm {
  import opened Types
  import opened Text
  import opened AppContext

  const EmptyUrl: string := "Please enter a TikTok URL"
  const InvalidUrl: string := "Please enter a valid TikTok URL"
  const ExtractFailed: string := "Failed to extract video information. Please check the URL and try again."

  /** The host text the URL must contain, searched case-sensitively in the untrimmed URL. */
  const Host: string := "tiktok.com"

  /** The verdict of the two checks before the resolver is called. */
  datatype Check = Blank | NotTikTok | Accepted

  function ValidateUrl(url: string): Check {
    if IsBlank(url) then Blank
    else if !Contains(url, Host) then NotTikTok
    else Accepted
  }

  /** The error text the form shows for a rejected URL. */
  function CheckMessage(c: Check): (r: Option<string>)
    ensures r.None? <==> c == Accepted
  {
    match c
    case Blank => Some(EmptyUrl)
    case NotTikTok => Some(InvalidUrl)
    case Accepted => None
  }

  /**
   * The blank check can only reject what the host check would also reject: a
   * URL is accepted exactly when it contains the host.
   */
  lemma AcceptedIffHost(url: string)
    ensures ValidateUrl(url) == Accepted <==> Contains(url, Host)
    ensures ValidateUrl(url) == Blank ==> !Contains(url, Host)
  {
    if Contains(url, Host) {
      var k :| 0 <= k <= |url| && OccursAt(url, Host, k);
      assert Host[0] == 't';
      assert url[k + 0] == Host[0];
      BlankIffAllWhiteSpace(url);
    }
  }

  /** Surrounding white space never changes the verdict, though the resolver gets the untrimmed URL. */
  lemma ValidateIgnoresTrim(url: string)
    ensures ValidateUrl(Trim(url)) == ValidateUrl(url)
  {
    var t := Trim(url);
    assert IsBlank(t) == IsBlank(url) by {
      TrimIdempotent(url);
    }
    HostIgnoresTrim(url);
  }

  lemma HostIgnoresTrim(url: string)
    ensures Contains(Trim(url), Host) == Contains(url, Host)
  {
    HostHasNoWhiteSpace();
    ContainsIgnoresTrim(url, Host);
  }

  lemma HostHasNoWhiteSpace()
    ensures forall i :: 0 <= i < |Host| ==> !IsWhiteSpace(Host[i])
  {
    forall i | 0 <= i < |Host|
      ensures !IsWhiteSpace(Host[i])
    {
      assert Host[i] in "tiktok.com";
      assert 'a' <= Host[i] <= 'z' || Host[i] == '.';
    }
  }

  class Form {
    const store: AppState
    var url: string
    var loading: bool
    var error: Option<string>

    constructor (store: AppState)
      ensures this.store == store
      ensures url == "" && !loading && error.None?
    {
      this.store := store;
      url, loading, error := "", false, None;
    }

    /** Typing in the URL field. */
    method ChangeUrl(value: string)
      modifies this
      ensures url == value && loading == old(loading) && error == old(error)
    {
      url := value;
    }

    /**
     * `handleSubmit` up to the `await`: a rejected URL sets its message and
     * nothing is requested; an accepted one starts loading, clears the error
     * and is handed to the resolver as typed.
     */
    method HandleSubmit() returns (request: Option<string>)
      modifies this
      ensures url == old(url)
      ensures request.Some? <==> ValidateUrl(url) == Accepted
      ensures request.Some? ==> request.value == url && Contains(request.value, Host)
      ensures request.Some? ==> loading && error.None?
      ensures request.None? ==> loading == old(loading) && error == CheckMessage(ValidateUrl(url)) && error.Some?
    {
      var verdict := ValidateUrl(url);
      if verdict != Accepted {
        error := CheckMessage(verdict);
        return None;
      }
      loading, error := true, None;
      request := Some(url);
    }

    /** The resolver answered: its video is added, the field cleared and loading ends. */
    method ResolverSucceeded(video: TikTokVideo)
      modifies this, store
      ensures store.videos == old(store.videos) + [video]
      ensures store.playlists == old(store.playlists) && store.user == old(store.user)
      ensures url == "" && !loading && error == old(error)
    {
      store.AddVideo(video);
      url, loading := "", false;
    }

    /** The resolver threw: the failure message is shown, the URL kept, loading ends. */
    method ResolverFailed()
      modifies this
      ensures error == Some(ExtractFailed) && !loading && url == old(url)
    {
      error, loading := Some(ExtractFailed), false;
    }
  }
}
