/**
 * The bookkeeping of src/utils/drive_uploader.py around the Drive API:
 * numbering of the `Video_NNN` folders, the tags file, the file id of a
 * share link, and which uploads `upload_video_with_metadata` attempts.
 * Every Drive and HTTP call is an oracle: its outcome is a parameter.
 */
module DriveUploader {
  import opened Wrappers
  import opened PyText
  import Storage
  import Seqs

  // ---------------------------------------------------------------------
  // Folder numbering

  /**
   * The number a folder name carries: the second `_`-separated part, when
   * there is one and it is all digits.
   */
  function FolderNumber(name: string): Option<nat>
  {
    var parts := Split(name, '_');
    if |parts| > 1 && IsDigits(parts[1]) then Some(DigitsValue(parts[1])) else None
  }

  /** `folder_numbers`: the numbers the listed folder names carry, in listing order. */
  function Parsed(names: seq<string>): seq<nat>
  {
    if names == [] then []
    else
      var last := names[|names| - 1];
      Parsed(names[..|names| - 1]) + (if FolderNumber(last).Some? then [FolderNumber(last).value] else [])
  }

  /** A number is collected exactly when some listed name carries it. */
  lemma {:induction false} ParsedMembers(names: seq<string>, v: nat)
    ensures v in Parsed(names) <==> exists i :: 0 <= i < |names| && FolderNumber(names[i]) == Some(v)
  {
    if names != [] {
      var init := names[..|names| - 1];
      ParsedMembers(init, v);
      if exists i :: 0 <= i < |init| && FolderNumber(init[i]) == Some(v) {
        var i :| 0 <= i < |init| && FolderNumber(init[i]) == Some(v);
        assert names[i] == init[i];
      }
      if exists i :: 0 <= i < |names| && FolderNumber(names[i]) == Some(v) {
        var i :| 0 <= i < |names| && FolderNumber(names[i]) == Some(v);
        if i < |init| {
          assert init[i] == names[i];
        }
      }
    }
  }

  /** `max(nums)` */
  function MaxOf(nums: seq<nat>): (r: nat)
    requires nums != []
    ensures r in nums
    ensures forall k :: 0 <= k < |nums| ==> nums[k] <= r
  {
    if |nums| == 1 then nums[0]
    else
      var m := MaxOf(nums[..|nums| - 1]);
      assert forall k :: 0 <= k < |nums| - 1 ==> nums[..|nums| - 1][k] == nums[k];
      if nums[|nums| - 1] > m then nums[|nums| - 1] else m
  }

  /** 1 when no number was collected, else one more than the largest. */
  function NextNumber(nums: seq<nat>): nat
  {
    if nums == [] then 1 else MaxOf(nums) + 1
  }

  /** The next number is above every collected number, and is 1 or one above a collected number. */
  lemma NextNumberAbove(nums: seq<nat>)
    ensures forall v :: v in nums ==> v < NextNumber(nums)
    ensures NextNumber(nums) == 1 || NextNumber(nums) - 1 in nums
  {
    if nums != [] {
      var m := MaxOf(nums);
      forall v | v in nums ensures v <= m {
        var k :| 0 <= k < |nums| && nums[k] == v;
      }
    }
  }

  /**
   * The next number is at least 1, above every number a listed name
   * carries, and either 1 or exactly one more than such a number.
   */
  lemma NextNumberFresh(names: seq<string>)
    ensures var n := NextNumber(Parsed(names));
      && n >= 1
      && (forall i :: 0 <= i < |names| && FolderNumber(names[i]).Some? ==> FolderNumber(names[i]).value < n)
      && (n == 1 || exists i :: 0 <= i < |names| && FolderNumber(names[i]) == Some(n - 1))
  {
    var nums := Parsed(names);
    var n := NextNumber(nums);
    NextNumberAbove(nums);
    forall i | 0 <= i < |names| && FolderNumber(names[i]).Some?
      ensures FolderNumber(names[i]).value < n
    {
      var v := FolderNumber(names[i]).value;
      ParsedMembers(names, v);
      assert v in nums;
    }
    if n != 1 {
      ParsedMembers(names, n - 1);
    }
  }

  /** The number a listing gives: from the names, or the clock's last three digits when listing fails. */
  function ListedNumber(listing: Result<seq<string>>, clock: nat): nat
  {
    match listing
    case Success(names) => NextNumber(Parsed(names))
    case Failure(_) => clock % 1000
  }

  /**
   * `get_next_folder_number`: the loop over the listed folder names, then
   * 1 or the maximum plus one; `clock` is `int(time.time())`.
   */
  method GetNextFolderNumber(listing: Result<seq<string>>, clock: nat) returns (n: nat)
    ensures n == ListedNumber(listing, clock)
    ensures listing.Failure? ==> n < 1000
    ensures listing.Success? ==> n >= 1
  {
    if listing.Failure? {
      return clock % 1000;
    }
    var names := listing.value;
    var numbers: seq<nat> := [];
    for i := 0 to |names|
      invariant numbers == Parsed(names[..i])
    {
      assert names[..i + 1][..i] == names[..i];
      var parts := Split(names[i], '_');
      if |parts| > 1 && IsDigits(parts[1]) {
        numbers := numbers + [DigitsValue(parts[1])];
      }
    }
    assert names[..|names|] == names;
    if numbers == [] {
      n := 1;
    } else {
      n := MaxOf(numbers) + 1;
    }
  }

  /**
   * Only the second part is read: `<a>_<b>_<rest>` carries the value of `b`
   * when `b` is all digits (so `Video_003_old` carries 3), and nothing
   * otherwise (so `My_Video_004` is not counted).
   */
  lemma SecondPartOnly(a: string, b: string, rest: string)
    requires '_' !in a && '_' !in b
    ensures IsDigits(b) ==> FolderNumber(a + "_" + b + "_" + rest) == Some(DigitsValue(b))
    ensures !IsDigits(b) ==> FolderNumber(a + "_" + b + "_" + rest) == None
  {
    var parts := Split(a + "_" + b + "_" + rest, '_');
    SplitTwo(a, b, rest);
    assert parts[1] == b;
  }

  /** Splitting `<a>_<b>_<rest>` gives `a`, `b`, then the pieces of `rest`. */
  lemma SplitTwo(a: string, b: string, rest: string)
    requires '_' !in a && '_' !in b
    ensures Split(a + "_" + b + "_" + rest, '_') == [a, b] + Split(rest, '_')
  {
    var t := b + ['_'] + rest;
    Seqs.Assoc(a + ['_'], b + ['_'], rest);
    Seqs.Assoc(a + ['_'], b, ['_']);
    SplitAppend(a, t, '_');
    SplitAppend(b, rest, '_');
    SplitFree(a, '_');
    SplitFree(b, '_');
    Seqs.Assoc([a], [b], Split(rest, '_'));
  }

  /** `f"Video_{n:03d}"` */
  function FolderName(n: nat): (r: string)
    ensures StartsWith(r, "Video_") && |r| >= 9
  {
    "Video_" + ZeroPad(n, 3)
  }

  /** Reading a formatted folder name back gives its number. */
  lemma FolderNameRoundTrip(n: nat)
    ensures FolderNumber(FolderName(n)) == Some(n)
  {
    var d := ZeroPad(n, 3);
    assert '_' !in d by {
      forall i | 0 <= i < |d| ensures d[i] != '_' {
        assert IsDigit(d[i]);
      }
    }
    SplitFree("Video", '_');
    SplitFree(d, '_');
    SplitAppend("Video", d, '_');
    assert FolderName(n) == "Video" + ['_'] + d;
  }

  // ---------------------------------------------------------------------
  // Tags

  /** The `tags` argument: a list, or anything else passed through as text. */
  datatype Tags = TagList(items: seq<string>) | TagText(text: string)

  /** `",".join(tags) if isinstance(tags, list) else tags` */
  function TagsText(tags: Tags): (r: string)
    ensures tags.TagText? ==> r == tags.text
  {
    match tags
    case TagList(items) => Join(items, ",")
    case TagText(text) => text
  }

  /** A non-empty list of comma-free tags is recovered by splitting the tags file on commas. */
  lemma TagsRoundTrip(items: seq<string>)
    requires |items| >= 1
    requires forall k :: 0 <= k < |items| ==> ',' !in items[k]
    ensures Split(TagsText(TagList(items)), ',') == items
  {
    assert "," == [','];
    SplitJoin(items, ',');
  }

  // ---------------------------------------------------------------------
  // Share links

  /**
   * `url.split("/d/")[1].split("/view")[0]`: the text after the first `/d/`
   * up to the next `/d/` or `/view`; none where the first split has one part.
   */
  function FileId(url: string): (r: Option<string>)
    ensures r.None? <==> !Contains(url, "/d/")
    ensures r.Some? ==> !Contains(r.value, "/view")
  {
    match SecondField(url, "/d/")
    case None => None
    case Some(field) =>
      BeforeFree(field, "/view");
      Some(Before(field, "/view"))
  }

  /**
   * The id of a share link `<a>/d/<id>/view<b>` is `<id>`, when `<id>` has
   * no `/` and the first `/d/` of the link is the one after `<a>`.
   */
  lemma FileIdOfShareLink(a: string, id: string, b: string)
    requires Find(a + "/d/", "/d/") == Some(|a|)
    requires '/' !in id
    ensures FileId(a + "/d/" + id + "/view" + b) == Some(id)
  {
    var link := a + "/d/" + id + "/view" + b;
    var rest := id + "/view" + b;
    assert link == (a + "/d/") + rest;
    FieldAfterMarker(a, rest);
    var field := Before(rest, "/d/");
    assert SecondField(link, "/d/") == Some(field);
    ViewKept(id, b);
    var c := field[|id| + 5..];
    assert field == field[..|id| + 5] + c;
    Seqs.Assoc(id, "/view", c);
    FindAfterFree(id, "/view" + c, "/view");
    assert Before(field, "/view") == id;
  }

  /** The field after the first `/d/` of `<a>/d/<rest>` is what precedes the next `/d/` in `rest`. */
  lemma FieldAfterMarker(a: string, rest: string)
    requires Find(a + "/d/", "/d/") == Some(|a|)
    ensures SecondField((a + "/d/") + rest, "/d/") == Some(Before(rest, "/d/"))
  {
    FindExtend(a + "/d/", rest, "/d/");
    assert ((a + "/d/") + rest)[|a| + 3..] == rest;
  }

  /** No `/d/` starts inside `<id>/view` when `id` has no `/`. */
  lemma ViewKept(id: string, b: string)
    requires '/' !in id
    ensures StartsWith(Before(id + "/view" + b, "/d/"), id + "/view")
  {
    var x := id + "/view";
    assert id + "/view" + b == x + b;
    forall k | 0 <= k < |x| ensures !OccursAt(x + b, "/d/", k) {
      if k < |id| {
        assert (x + b)[k] == id[k];
      } else if k == |id| {
        assert (x + b)[k + 1] == 'v';
      } else {
        assert (x + b)[k] == "/view"[k - |id|];
      }
    }
    BeforeKeeps(x, b, "/d/");
  }

  /** The prefix of the direct download address; the id follows it. */
  const DownloadPrefix := "https://drive.google.com/uc?export=download&id="

  /** An HTTP response: status code and body. */
  datatype Response = Response(status: int, content: Storage.Bytes)

  /**
   * Whether the save step of a 200 response succeeds: `os.makedirs` of the
   * path's directory raises for a path with no directory part (no `/`), and
   * `writable` says whether creating that directory and writing the file
   * succeed on the disk.
   */
  predicate SaveSucceeds(savePath: string, writable: bool)
  {
    '/' in savePath && writable
  }

  /**
   * `download_service_account(url, save_path)`: a link without `/d/`
   * fails before any request; otherwise the direct address is fetched,
   * and only a 200 response whose save succeeds is written to `save_path`
   * and reported; every failure returns None.
   */
  method DownloadServiceAccount(url: string, savePath: string, fetch: string -> Response, writable: bool,
                                store: Storage.FileStore)
    returns (r: Option<string>, requested: Option<string>)
    modifies store
    ensures FileId(url).None? ==> r.None? && requested.None? && store.files == old(store.files)
    ensures FileId(url).Some? ==> requested == Some(DownloadPrefix + FileId(url).value)
    ensures requested.Some? && fetch(requested.value).status == 200 && SaveSucceeds(savePath, writable) ==>
      r == Some(savePath) && store.files == old(store.files)[savePath := fetch(requested.value).content]
    ensures requested.Some? && (fetch(requested.value).status != 200 || !SaveSucceeds(savePath, writable)) ==>
      r.None? && store.files == old(store.files)
  {
    var id := FileId(url);
    if id.None? {
      return None, None;
    }
    var address := DownloadPrefix + id.value;
    requested := Some(address);
    var response := fetch(address);
    if response.status == 200 {
      if !SaveSucceeds(savePath, writable) {
        // os.makedirs or the write raised: the handler reports None
        return None, requested;
      }
      store.Write(savePath, response.content);
      r := Some(savePath);
    } else {
      r := None;
    }
  }

  // ---------------------------------------------------------------------
  // upload_video_with_metadata

  /** One upload request: a local file under a name, or text content as a file. */
  datatype Upload =
    | FileUpload(path: string, name: string, folder: string)
    | TextUpload(name: string, content: string, folder: string)

  /**
   * The Drive as the uploader sees it: whether the service starts, the
   * listing of the parent folder, the clock, and the outcome of each create
   * call (the id, or none on failure).
   */
  datatype Drive = Drive(
    serviceStarts: bool,
    listing: Result<seq<string>>,
    clock: nat,
    createFolder: string -> Option<string>,
    uploadFile: (string, string, string) -> Option<string>,
    uploadText: (string, string, string) -> Option<string>)

  /** `upload_file(service, path, folder)`: the upload named after the file's base name. */
  function FileRequest(path: string, folder: string): Upload
  {
    FileUpload(path, Basename(path), folder)
  }

  /** The uploads attempted once the folder exists, whatever each of them returns. */
  function Uploads(video: string, title: string, description: string, tags: Tags,
                   thumbnail: Option<string>, thumbnailExists: bool, folder: string): seq<Upload>
  {
    [FileRequest(video, folder),
     TextUpload("title.txt", title, folder),
     TextUpload("description.txt", description, folder),
     TextUpload("tags.txt", TagsText(tags), folder)]
    + (if thumbnail.Some? && thumbnail.value != "" && thumbnailExists then [FileRequest(thumbnail.value, folder)] else [])
  }

  /**
   * The uploads always attempted, in order: video, title, description and
   * tags; the thumbnail comes last and only when it is given and exists.
   */
  lemma UploadsOrder(video: string, title: string, description: string, tags: Tags,
                     thumbnail: Option<string>, thumbnailExists: bool, folder: string)
    ensures var u := Uploads(video, title, description, tags, thumbnail, thumbnailExists, folder);
      && 4 <= |u| <= 5
      && u[0].FileUpload? && u[0].path == video
      && u[1].name == "title.txt" && u[2].name == "description.txt" && u[3].name == "tags.txt"
      && u[3].content == TagsText(tags)
      && (|u| == 5 <==> thumbnail.Some? && thumbnail.value != "" && thumbnailExists)
      && (forall k :: 0 <= k < |u| ==> u[k].folder == folder)
  {
  }

  /**
   * What the call ends with once it reached the Drive: no upload unless the
   * folder was created; the folder is named after the listed number; and
   * with the folder id, every planned upload was attempted.
   */
  predicate Reached(video: string, title: string, description: string, tags: Tags,
                    thumbnail: Option<string>, thumbnailExists: bool, drive: Drive,
                    r: Option<string>, folderName: Option<string>, uploads: seq<Upload>)
  {
    && (r.None? ==> uploads == [])
    && (folderName.Some? ==> folderName.value == FolderName(ListedNumber(drive.listing, drive.clock)))
    && (folderName.Some? ==> (r.Some? <==> FolderCreated(drive, folderName.value)))
    && (r.Some? ==> folderName.Some? && r == drive.createFolder(folderName.value))
    && (r.Some? ==> uploads == Uploads(video, title, description, tags, thumbnail, thumbnailExists, r.value))
  }

  /** `create_folder` returned a (non-empty) id. */
  predicate FolderCreated(drive: Drive, name: string)
  {
    drive.createFolder(name).Some? && drive.createFolder(name).value != ""
  }

  /**
   * `upload_video_with_metadata`: missing credentials that cannot be
   * downloaded, or a service that does not start, end the call with none
   * before any listing or upload; a folder that cannot be created ends it
   * with none before any upload; otherwise every upload is attempted, even
   * when the video upload fails, and the folder id is returned.
   * `downloaded` is what `download_service_account` returned.
   */
  method UploadVideoWithMetadata(video: string, title: string, description: string, tags: Tags,
                                 thumbnail: Option<string>, thumbnailExists: bool,
                                 credentialsExist: bool, downloaded: Option<string>, drive: Drive)
    returns (r: Option<string>, folderName: Option<string>, uploads: seq<Upload>)
    ensures !credentialsExist && (downloaded.None? || downloaded.value == "")
            ==> r.None? && folderName.None? && uploads == []
    ensures !drive.serviceStarts ==> r.None? && folderName.None? && uploads == []
    ensures (credentialsExist || (downloaded.Some? && downloaded.value != "")) && drive.serviceStarts
            ==> folderName.Some?
    ensures Reached(video, title, description, tags, thumbnail, thumbnailExists, drive, r, folderName, uploads)
  {
    uploads := [];
    folderName := None;
    if !credentialsExist {
      if downloaded.None? || downloaded.value == "" {
        return None, None, [];
      }
    }
    if !drive.serviceStarts {
      return None, None, [];
    }
    var next := GetNextFolderNumber(drive.listing, drive.clock);
    var name := FolderName(next);
    folderName := Some(name);
    var folder := drive.createFolder(name);
    if !FolderCreated(drive, name) {
      r := None;
      return;
    }
    var id := folder.value;
    var videoRequest := FileRequest(video, id);
    var videoId := drive.uploadFile(videoRequest.path, videoRequest.name, id);
    var titleId := drive.uploadText(title, "title.txt", id);
    var descriptionId := drive.uploadText(description, "description.txt", id);
    var tagsText := TagsText(tags);
    var tagsId := drive.uploadText(tagsText, "tags.txt", id);
    uploads := [videoRequest, TextUpload("title.txt", title, id),
                TextUpload("description.txt", description, id), TextUpload("tags.txt", tagsText, id)];
    if thumbnail.Some? && thumbnail.value != "" && thumbnailExists {
      var thumb := FileRequest(thumbnail.value, id);
      var thumbId := drive.uploadFile(thumb.path, thumb.name, id);
      uploads := uploads + [thumb];
    }
    r := folder;
  }
}
