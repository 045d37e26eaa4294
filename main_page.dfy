/**
 * frontend/src/MainPage.jsx: the public search page. A visitor drops or picks an image,
 * then searches; the page keeps the chosen image, the error line, the matches shown
 * and the loading flag. `handleSearch` is cut at its `await`: `BeginSearch` runs up to
 * the request, `FinishSearch` runs once the request has settled.
 */
module MainPage {
  import opened Common
  import Search

  const InvalidImageMessage := "Please upload a valid image file (PNG or JPEG)."
  const NoImageMessage := "No image uploaded."
  const NoMatchMessage := "No such object found."
  const SearchFailedMessage := "An error occurred during the search."

  /** The only media types the page accepts, compared exactly. */
  predicate AcceptedImage(f: Option<File>)
  {
    f.Some? && (f.value.mime == "image/png" || f.value.mime == "image/jpeg")
  }

  /** How the search request settled: `response.data` (absent or a list), or a thrown request. */
  datatype SearchReply = Answered(data: Option<seq<Search.Match>>) | RequestFailed

  class SearchPage {
    var image: Option<File>
    var error: string
    var matches: seq<Search.Match>
    var loading: bool
    /** The `value` of the hidden file input. */
    var fileInputValue: string

    constructor ()
      ensures image.None? && error == "" && matches == [] && !loading && fileInputValue == ""
    {
      image, error, matches, loading, fileInputValue := None, "", [], false, "";
    }

    /** handleImageUpload, reached from both the file picker and a drop. */
    method HandleImageUpload(f: Option<File>)
      modifies this`image, this`error
      ensures AcceptedImage(f) ==> image == f && error == ""
      ensures !AcceptedImage(f) ==> image.None? && error == InvalidImageMessage
    {
      if AcceptedImage(f) {
        image := f;
        error := "";
      } else {
        error := InvalidImageMessage;
        image := None;
      }
    }

    /** handleSearch up to the request; `sent` says that the request was issued. */
    method BeginSearch() returns (sent: bool)
      modifies this`loading, this`error, this`matches
      ensures sent <==> image.Some?
      ensures !sent ==> error == NoImageMessage && loading == old(loading) && matches == old(matches)
      ensures sent ==> loading && error == "" && matches == []
    {
      if image.None? {
        error := NoImageMessage;
        return false;
      }
      loading := true;
      error := "";
      matches := [];
      sent := true;
    }

    /**
     * handleSearch after the request settled with `reply`. While the request is in
     * flight only the Search button is disabled, so a drop or a pick may have changed
     * `image` and `error` meanwhile; a non-empty answer leaves `error` as it found it.
     */
    method FinishSearch(reply: SearchReply)
      requires loading && matches == []
      modifies this
      ensures reply.Answered? && reply.data.Some? && reply.data.value != [] ==>
                matches == reply.data.value && error == old(error)
      ensures reply.Answered? && (reply.data.None? || reply.data.value == []) ==>
                matches == [] && error == NoMatchMessage
      ensures reply.RequestFailed? ==> matches == [] && error == SearchFailedMessage
      ensures !loading && image.None? && fileInputValue == ""
    {
      if reply.RequestFailed? {
        error := SearchFailedMessage;
      } else if reply.data.Some? && |reply.data.value| > 0 {
        matches := reply.data.value;
      } else {
        error := NoMatchMessage;
      }
      loading := false;
      image := None;
      fileInputValue := "";
    }

    /** The whole of handleSearch for a request that settles with `reply`. */
    method HandleSearch(reply: SearchReply) returns (sent: bool)
      modifies this
      ensures sent <==> old(image).Some?
      ensures !sent ==> && error == NoImageMessage && image == old(image)
                        && matches == old(matches) && loading == old(loading)
                        && fileInputValue == old(fileInputValue)
      ensures sent ==> && !loading && image.None? && fileInputValue == ""
                       && matches == (if reply.Answered? && reply.data.Some? then reply.data.value else [])
                       && error == SearchOutcomeMessage(reply)
    {
      sent := BeginSearch();
      if sent {
        FinishSearch(reply);
      }
    }
  }

  /** The error line a settled search leaves: empty exactly when matches are shown. */
  function SearchOutcomeMessage(reply: SearchReply): (r: string)
    ensures r == "" <==> reply.Answered? && reply.data.Some? && reply.data.value != []
    ensures r != "" ==> r == NoMatchMessage || r == SearchFailedMessage
  {
    match reply
    case RequestFailed => SearchFailedMessage
    case Answered(data) => if data.Some? && data.value != [] then "" else NoMatchMessage
  }

  /**
   * A settled search that nothing interleaves leaves the page ready for the next one:
   * no image, the file input cleared, not loading, and either matches or an error,
   * never both.
   */
  method SearchScenario(f: File, reply: SearchReply)
    requires f.mime == "image/jpeg"
  {
    var page := new SearchPage();
    page.HandleImageUpload(Some(f));
    assert page.image == Some(f);
    var sent := page.HandleSearch(reply);
    assert sent && page.image.None? && !page.loading;
    assert (page.matches != []) != (page.error != "");
    var again := page.HandleSearch(reply);
    assert !again && page.error == NoImageMessage;
  }

  /**
   * A file that is not an image, dropped while the search request is in flight, sets
   * the invalid-image error; a non-empty answer then shows its matches beside it.
   */
  method DropDuringSearch(f: File, pdf: File, found: seq<Search.Match>)
    requires f.mime == "image/jpeg" && pdf.mime == "application/pdf" && found != []
  {
    var page := new SearchPage();
    page.HandleImageUpload(Some(f));
    var sent := page.BeginSearch();
    page.HandleImageUpload(Some(pdf));
    page.FinishSearch(Answered(Some(found)));
    assert sent && page.matches == found && page.error == InvalidImageMessage;
  }
}
