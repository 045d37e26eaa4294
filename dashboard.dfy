/**
 * frontend/src/AdminDashboard.jsx: the administrator's gallery of found items, its
 * upload dialog with the client-side name checks, and its delete confirmation.
 * Each request's outcome is a parameter of the handler that awaits it.
 */
module Dashboard {
  import opened Common

  /** `name.split('.')[0]`: the text before the first '.', or all of `name`. */
  function BeforeFirstDot(name: string): (r: string)
    ensures r <= name
    ensures '.' !in r
    ensures |r| < |name| ==> name[|r|] == '.'
    decreases |name|
  {
    if name == [] || name[0] == '.' then []
    else [name[0]] + BeforeFirstDot(name[1..])
  }

  /** `name.split('.').pop()`: the text after the last '.', or all of `name`. */
  function AfterLastDot(name: string): (r: string)
    ensures |r| <= |name| && name[|name| - |r|..] == r
    ensures '.' !in r
    ensures |r| < |name| ==> name[|name| - |r| - 1] == '.'
    decreases |name|
  {
    if name == [] || name[|name| - 1] == '.' then []
    else AfterLastDot(name[..|name| - 1]) + [name[|name| - 1]]
  }

  /** The allowed extensions, compared exactly: "JPG" is not "jpg". */
  const ValidExtensions: seq<string> := ["jpg", "jpeg", "png"]

  /** The stored name: the user's filename if it has a '.', else filename + "." + extension. */
  function StoredName(filename: string, extension: string): string
  {
    if '.' in filename then filename else filename + "." + extension
  }

  /** The outcome of the checks that precede the upload request. */
  datatype UploadCheck = NoFile | BadExtension | NameTaken | Upload(storedName: string)

  const NoFileMessage := "Please select a file to upload."
  const BadExtensionMessage := "Invalid file extension. Please upload a .jpg, .jpeg, or .png file."
  const NameTakenMessage := "Filename already exists. Please choose a unique name."

  function CheckMessage(c: UploadCheck): string
  {
    match c
    case NoFile => NoFileMessage
    case BadExtension => BadExtensionMessage
    case NameTaken => NameTakenMessage
    case Upload(_) => ""
  }

  /** The checks of handleConfirmUpload, in the order file, extension, collision. */
  function CheckUpload(file: Option<File>, filename: string, items: seq<string>): (r: UploadCheck)
    ensures r == NoFile <==> file.None?
    ensures r == BadExtension <==> file.Some? && AfterLastDot(file.value.name) !in ValidExtensions
    ensures r == NameTaken <==>
              && file.Some? && AfterLastDot(file.value.name) in ValidExtensions
              && StoredName(filename, AfterLastDot(file.value.name)) in items
    ensures r.Upload? ==>
              && file.Some?
              && AfterLastDot(file.value.name) in ValidExtensions
              && r.storedName == StoredName(filename, AfterLastDot(file.value.name))
              && r.storedName !in items
  {
    if file.None? then NoFile
    else
      var extension := AfterLastDot(file.value.name);
      if extension !in ValidExtensions then BadExtension
      else
        var name := StoredName(filename, extension);
        if name in items then NameTaken else Upload(name)
  }

  /** The prefix before the first '.' is the text up to any '.' that has none before it. */
  lemma BeforeFirstDotAt(name: string, p: nat)
    requires p < |name| && name[p] == '.' && '.' !in name[..p]
    ensures BeforeFirstDot(name) == name[..p]
  {
  }

  /** The suffix after the last '.' is the text after any '.' that has none after it. */
  lemma AfterLastDotAt(name: string, p: nat)
    requires p < |name| && name[p] == '.' && '.' !in name[p + 1..]
    ensures AfterLastDot(name) == name[p + 1..]
  {
  }

  lemma SplitAt(name: string, p: nat)
    requires p < |name| && name[p] == '.'
    ensures name == name[..p] + "." + name[p + 1..]
  {
    assert name == name[..p] + [name[p]] + name[p + 1..];
  }

  lemma StoredWithoutDot(filename: string, extension: string)
    requires '.' !in filename
    ensures StoredName(filename, extension) == filename + "." + extension
  {
  }

  /**
   * A file name with exactly one '.' is rebuilt by the dialog's default filename, so
   * uploading it unrenamed stores it under its own name.
   */
  lemma SingleDotRoundTrip(name: string, p: nat)
    requires p < |name| && name[p] == '.' && '.' !in name[..p] && '.' !in name[p + 1..]
    ensures StoredName(BeforeFirstDot(name), AfterLastDot(name)) == name
  {
    BeforeFirstDotAt(name, p);
    AfterLastDotAt(name, p);
    SplitAt(name, p);
    StoredWithoutDot(name[..p], name[p + 1..]);
  }

  /** An unrenamed "lostcat.jpg" is stored as "lostcat.jpg", unless that name is listed. */
  lemma CheckLostCat(items: seq<string>)
    ensures CheckUpload(Some(File("lostcat.jpg", "image/jpeg", [])), BeforeFirstDot("lostcat.jpg"), items)
            == if "lostcat.jpg" in items then NameTaken else Upload("lostcat.jpg")
  {
    SingleDotRoundTrip("lostcat.jpg", 7);
  }

  /** With several dots, the default filename and the extension drop the middle part. */
  lemma CheckSeveralDots()
    ensures CheckUpload(Some(File("my.cat.png", "image/png", [])), BeforeFirstDot("my.cat.png"), [])
            == Upload("my.png")
  {
    BeforeFirstDotAt("my.cat.png", 2);
    AfterLastDotAt("my.cat.png", 6);
  }

  /** Upper-case extensions and names without a '.' are refused. */
  lemma CheckBadExtensions()
    ensures CheckUpload(Some(File("cat.JPG", "image/jpeg", [])), "cat", []) == BadExtension
    ensures CheckUpload(Some(File("cat", "image/jpeg", [])), "cat", []) == BadExtension
  {
    AfterLastDotAt("cat.JPG", 3);
  }

  /** A name starting with '.' gives an empty default filename, and the stored name is "." + extension. */
  lemma CheckEmptyFilename()
    ensures CheckUpload(Some(File(".png", "image/png", [])), BeforeFirstDot(".png"), []) == Upload(".png")
  {
    AfterLastDotAt(".png", 0);
  }

  /** A filename that has a '.' is stored as typed, whatever the file's extension. */
  lemma CheckDottedFilename()
    ensures CheckUpload(Some(File("cat.png", "image/png", [])), "a.b", []) == Upload("a.b")
  {
    AfterLastDotAt("cat.png", 3);
    assert "a.b"[1] == '.';
  }

  /** A request to put `content` under `bucket/key` with media type `mime`. */
  datatype PutRequest = PutRequest(bucket: string, key: string, content: Bytes, mime: string)

  /** The delete request body `{ bucket, key }`. */
  datatype DeleteRequest = DeleteRequest(bucket: string, key: string)

  class AdminDashboard {
    /** The configured bucket of found items. */
    const bucketName: string

    var items: seq<string>
    var loading: bool
    var error: string
    var uploading: bool
    var file: Option<File>
    var filename: string
    var dialogOpen: bool
    var confirmDialogOpen: bool
    var selectedItem: Option<string>

    /** The delete confirmation is only opened for a chosen item. */
    predicate Valid()
      reads this
    {
      confirmDialogOpen ==> selectedItem.Some?
    }

    constructor (bucket: string)
      ensures Valid() && bucketName == bucket
      ensures items == [] && loading && error == "" && !uploading
      ensures file.None? && filename == "" && !dialogOpen && !confirmDialogOpen && selectedItem.None?
    {
      bucketName := bucket;
      items, loading, error, uploading := [], true, "", false;
      file, filename, dialogOpen, confirmDialogOpen, selectedItem := None, "", false, false, None;
    }

    /** fetchItems: `reply` is the parsed list of names, or `None` when the request fails. */
    method FetchItems(reply: Option<seq<string>>)
      requires Valid()
      modifies this
      ensures Valid() && !loading
      ensures reply.Some? ==> items == reply.value && error == old(error)
      ensures reply.None? ==> items == old(items) && error == "Failed to load items"
      ensures uploading == old(uploading) && file == old(file) && filename == old(filename)
      ensures dialogOpen == old(dialogOpen) && confirmDialogOpen == old(confirmDialogOpen)
      ensures selectedItem == old(selectedItem)
    {
      if reply.Some? {
        items := reply.value;
      } else {
        error := "Failed to load items";
      }
      loading := false;
    }

    /** handleFileChange: keep the chosen file and default the filename to the part before its first '.'. */
    method FileChange(chosen: Option<File>)
      requires Valid()
      modifies this
      ensures Valid() && file == chosen
      ensures filename == if chosen.Some? then BeforeFirstDot(chosen.value.name) else ""
      ensures items == old(items) && loading == old(loading) && error == old(error)
      ensures uploading == old(uploading) && dialogOpen == old(dialogOpen)
      ensures confirmDialogOpen == old(confirmDialogOpen) && selectedItem == old(selectedItem)
    {
      file := chosen;
      filename := if chosen.Some? then BeforeFirstDot(chosen.value.name) else "";
    }

    /** The filename text field. */
    method FilenameChange(value: string)
      requires Valid()
      modifies this`filename
      ensures Valid() && filename == value
    {
      filename := value;
    }

    method UploadClick()
      requires Valid()
      modifies this`dialogOpen
      ensures Valid() && dialogOpen
    {
      dialogOpen := true;
    }

    /**
     * handleConfirmUpload. The checks run on the last fetched `items`; only when all pass
     * is `put` issued, under the stored name. `putFails` is the request's outcome.
     * `refetch` says that fetchItems was started (it is not awaited).
     */
    method ConfirmUpload(putFails: bool) returns (put: Option<PutRequest>, refetch: bool)
      requires Valid() && dialogOpen
      modifies this
      ensures Valid()
      ensures items == old(items) && loading == old(loading)
      ensures confirmDialogOpen == old(confirmDialogOpen) && selectedItem == old(selectedItem)
      ensures var c := CheckUpload(old(file), old(filename), old(items));
              if !c.Upload? then
                && put.None? && !refetch && error == CheckMessage(c)
                && uploading == old(uploading) && dialogOpen
                && file == old(file) && filename == old(filename)
              else
                && put == Some(PutRequest(bucketName, c.storedName, old(file).value.content, old(file).value.mime))
                && !uploading && !dialogOpen && refetch == !putFails
                && (!putFails ==> error == "" && file.None? && filename == "")
                && (putFails ==> error == "Failed to upload file" && file == old(file) && filename == old(filename))
    {
      var check := CheckUpload(file, filename, items);
      if !check.Upload? {
        error := CheckMessage(check);
        return None, false;
      }
      put, refetch := SendUpload(check.storedName, putFails);
    }

    /**
     * The request half of handleConfirmUpload: `put` the chosen file under `storedName`;
     * on success clear the selection and refetch, on failure report it. Either way the
     * dialog closes.
     */
    method SendUpload(storedName: string, putFails: bool) returns (put: Option<PutRequest>, refetch: bool)
      requires Valid() && file.Some?
      modifies this
      ensures Valid()
      ensures put == Some(PutRequest(bucketName, storedName, old(file).value.content, old(file).value.mime))
      ensures !uploading && !dialogOpen && refetch == !putFails
      ensures !putFails ==> error == "" && file.None? && filename == ""
      ensures putFails ==> error == "Failed to upload file" && file == old(file) && filename == old(filename)
      ensures items == old(items) && loading == old(loading)
      ensures confirmDialogOpen == old(confirmDialogOpen) && selectedItem == old(selectedItem)
    {
      uploading := true;
      error := "";
      put := Some(PutRequest(bucketName, storedName, file.value.content, file.value.mime));
      if !putFails {
        file := None;
        filename := "";
        refetch := true;
      } else {
        error := "Failed to upload file";
        refetch := false;
      }
      uploading := false;
      dialogOpen := false;
    }

    /** The upload dialog's Cancel. */
    method CloseUploadDialog()
      requires Valid()
      modifies this`dialogOpen
      ensures Valid() && !dialogOpen
    {
      dialogOpen := false;
    }

    /** handleDeleteClick */
    method DeleteClick(item: string)
      requires Valid()
      modifies this`selectedItem, this`confirmDialogOpen
      ensures Valid() && selectedItem == Some(item) && confirmDialogOpen
    {
      selectedItem := Some(item);
      confirmDialogOpen := true;
    }

    /** The delete confirmation's Cancel: the selected item stays selected. */
    method CloseDeleteDialog()
      requires Valid()
      modifies this`confirmDialogOpen
      ensures Valid() && !confirmDialogOpen
    {
      confirmDialogOpen := false;
    }

    /**
     * handleConfirmDelete: always posts the selected item; `postFails` is the request's
     * outcome. The items shown change only through the refetch it starts.
     */
    method ConfirmDelete(postFails: bool) returns (request: DeleteRequest, refetch: bool)
      requires Valid() && confirmDialogOpen
      modifies this
      ensures Valid()
      ensures request == DeleteRequest(bucketName, old(selectedItem).value)
      ensures refetch == !postFails
      ensures error == if postFails then "Failed to delete item" else old(error)
      ensures !confirmDialogOpen && selectedItem.None?
      ensures items == old(items) && loading == old(loading) && uploading == old(uploading)
      ensures file == old(file) && filename == old(filename) && dialogOpen == old(dialogOpen)
    {
      request := DeleteRequest(bucketName, selectedItem.value);
      refetch := !postFails;
      if postFails {
        error := "Failed to delete item";
      }
      confirmDialogOpen := false;
      selectedItem := None;
    }
  }
}
