/**
 * The client-side rules of PutIOKit/Methods/PKAPI+Files.h: which local files
 * each upload method accepts, the name an upload is stored under, and the
 * paging of search results.
 */
module Files {
  import opened Wrappers

  /** The part of `s` after the last `sep`, or all of `s` when `sep` does not occur. */
  function AfterLast(s: string, sep: char): (tail: string)
    ensures sep !in tail
    ensures |tail| <= |s| && s[|s| - |tail|..] == tail
    ensures |tail| < |s| ==> s[|s| - |tail| - 1] == sep
  {
    if s == [] then []
    else if s[|s| - 1] == sep then []
    else AfterLast(s[..|s| - 1], sep) + [s[|s| - 1]]
  }

  /** The three properties of `AfterLast` determine it. */
  lemma AfterLastUnique(s: string, sep: char, tail: string)
    requires sep !in tail
    requires |tail| <= |s| && s[|s| - |tail|..] == tail
    requires |tail| < |s| ==> s[|s| - |tail| - 1] == sep
    ensures tail == AfterLast(s, sep)
  {
  }

  /** The last component of a file URL's path. */
  function LastPathComponent(fileURL: string): (name: string)
    ensures '/' !in name
  {
    AfterLast(fileURL, '/')
  }

  /** The extension of a file name: the text after its last `.`, empty when it has none. */
  function PathExtension(name: string): (ext: string)
    ensures '.' !in ext
  {
    if '.' in name then AfterLast(name, '.') else ""
  }

  /** `s` ends with `suffix`. */
  predicate EndsWith(s: string, suffix: string)
  {
    |suffix| <= |s| && s[|s| - |suffix|..] == suffix
  }

  /** A name has the extension `torrent` exactly when it ends with `.torrent`. */
  lemma TorrentExtensionIffSuffix(name: string)
    ensures PathExtension(name) == "torrent" <==> EndsWith(name, ".torrent")
  {
    if EndsWith(name, ".torrent") {
      SuffixGivesTorrentExtension(name);
    }
    if PathExtension(name) == "torrent" {
      TorrentExtensionGivesSuffix(name);
    }
  }

  /** A name ending with `.torrent` has the extension `torrent`. */
  lemma SuffixGivesTorrentExtension(name: string)
    requires EndsWith(name, ".torrent")
    ensures PathExtension(name) == "torrent"
  {
    assert name[|name| - 8] == '.';
    assert name[|name| - 7..] == name[|name| - 8..][1..];
    AfterLastUnique(name, '.', "torrent");
  }

  /** A name with the extension `torrent` ends with `.torrent`. */
  lemma TorrentExtensionGivesSuffix(name: string)
    requires PathExtension(name) == "torrent"
    ensures EndsWith(name, ".torrent")
  {
    assert name[|name| - 8..] == [name[|name| - 8]] + name[|name| - 7..];
  }

  /** The local file is a `.torrent` file: its last path component ends with `.torrent`. */
  predicate IsTorrentFile(fileURL: string): (b: bool)
    ensures b <==> EndsWith(LastPathComponent(fileURL), ".torrent")
  {
    TorrentExtensionIffSuffix(LastPathComponent(fileURL));
    PathExtension(LastPathComponent(fileURL)) == "torrent"
  }

  /** The exception an upload method raises for a file it does not take. */
  datatype UploadRejection = TorrentNeedsTorrentUpload | NotATorrent

  /** What a successful upload hands to its callback: a `PKFile` or a `PKTransfer`. */
  datatype UploadProduct = UploadedFile | StartedTransfer

  /** An accepted upload: the file sent, its destination folder and the name it is stored under. */
  datatype Upload = Upload(fileURL: string, parentIdentifier: int, storedName: string, product: UploadProduct)

  /** A nil new name keeps the original file name. */
  function StoredName(fileURL: string, newFileName: Option<string>): (stored: string)
    ensures newFileName.Some? ==> stored == newFileName.value
    ensures newFileName.None? ==> '/' !in stored && EndsWith(fileURL, stored)
  {
    match newFileName
    case None => LastPathComponent(fileURL)
    case Some(name) => name
  }

  /** `uploadFileAtURL:toFolderWithID:newFileName:callback:` */
  function UploadFile(fileURL: string, parentIdentifier: int, newFileName: Option<string>): (r: Result<Upload, UploadRejection>)
    ensures r.Failure? <==> IsTorrentFile(fileURL)
    ensures r.Failure? ==> r.error == TorrentNeedsTorrentUpload
    ensures r.Success? ==> r.value.product == UploadedFile && r.value.fileURL == fileURL &&
                           r.value.parentIdentifier == parentIdentifier
    ensures r.Success? && newFileName.Some? ==> r.value.storedName == newFileName.value
    ensures r.Success? && newFileName.None? ==> r.value.storedName == LastPathComponent(fileURL)
  {
    if IsTorrentFile(fileURL) then Failure(TorrentNeedsTorrentUpload)
    else Success(Upload(fileURL, parentIdentifier, StoredName(fileURL, newFileName), UploadedFile))
  }

  /** `uploadTorrentFileAtURL:toFolderWithID:newFileName:callback:` */
  function UploadTorrentFile(torrentURL: string, parentIdentifier: int, newFileName: Option<string>): (r: Result<Upload, UploadRejection>)
    ensures r.Failure? <==> !IsTorrentFile(torrentURL)
    ensures r.Failure? ==> r.error == NotATorrent
    ensures r.Success? ==> r.value.product == StartedTransfer && r.value.fileURL == torrentURL &&
                           r.value.parentIdentifier == parentIdentifier
    ensures r.Success? && newFileName.Some? ==> r.value.storedName == newFileName.value
    ensures r.Success? && newFileName.None? ==> r.value.storedName == LastPathComponent(torrentURL)
  {
    if !IsTorrentFile(torrentURL) then Failure(NotATorrent)
    else Success(Upload(torrentURL, parentIdentifier, StoredName(torrentURL, newFileName), StartedTransfer))
  }

  /** Every local file is taken by exactly one of the two upload methods. */
  lemma ExactlyOneUploadAccepts(fileURL: string, parentIdentifier: int, newFileName: Option<string>)
    ensures UploadFile(fileURL, parentIdentifier, newFileName).Success? !=
            UploadTorrentFile(fileURL, parentIdentifier, newFileName).Success?
  {
  }

  /**
   * A kept original name, under either upload method, is the file's own name:
   * the URL ends with `/` and that name, or is that name.
   */
  lemma KeptNameIsOriginal(fileURL: string)
    ensures var name := StoredName(fileURL, None);
      name == LastPathComponent(fileURL) && '/' !in name &&
      (fileURL == name || (|name| < |fileURL| && fileURL == fileURL[..|fileURL| - |name| - 1] + "/" + name))
  {
    var name := LastPathComponent(fileURL);
    if |name| < |fileURL| {
      assert fileURL == fileURL[..|fileURL| - |name| - 1] + [fileURL[|fileURL| - |name| - 1]] + fileURL[|fileURL| - |name|..];
    }
  }

  // ---------------------------------------------------------------------------
  // Search

  /** Search results come 50 at a time. */
  const PageSize := 50

  /**
   * One page of `searchFilesWithQuery:onPage:`: the files on it and the page
   * the next-page URL points to, if there is a next page.
   */
  datatype SearchPage<F> = SearchPage(files: seq<F>, nextPage: Option<int>)

  /**
   * Page `page` of the server's ordered matches for a query (pages numbered
   * from 1; a page before the first or past the last is empty).
   */
  function Search<F>(matches: seq<F>, page: int): (r: SearchPage<F>)
    ensures |r.files| <= PageSize
    ensures r.nextPage.Some? <==> 1 <= page && page * PageSize < |matches|
    ensures r.nextPage.Some? ==> r.nextPage.value == page + 1
    ensures 1 <= page && (page - 1) * PageSize < |matches| ==>
              r.files != [] && (page - 1) * PageSize + |r.files| <= |matches| &&
              r.files == matches[(page - 1) * PageSize .. (page - 1) * PageSize + |r.files|]
    ensures r.nextPage.Some? ==> |r.files| == PageSize
  {
    if page < 1 || (page - 1) * PageSize >= |matches| then SearchPage([], None)
    else
      var start := (page - 1) * PageSize;
      if page * PageSize < |matches| then SearchPage(matches[start .. start + PageSize], Some(page + 1))
      else SearchPage(matches[start..], None)
  }

  /** Everything seen by following next-page URLs from `page` onwards. */
  function FollowPages<F>(matches: seq<F>, page: int): seq<F>
    decreases if page >= 1 then |matches| + PageSize - page * PageSize else 0
  {
    var r := Search(matches, page);
    if r.nextPage.Some? then r.files + FollowPages(matches, r.nextPage.value) else r.files
  }

  /** Following the next-page URLs from page `page` returns every remaining match, in order. */
  lemma {:induction false} FollowPagesFrom<F>(matches: seq<F>, page: int)
    requires 1 <= page && (page - 1) * PageSize <= |matches|
    ensures FollowPages(matches, page) == matches[(page - 1) * PageSize..]
    decreases |matches| + PageSize - page * PageSize
  {
    var r := Search(matches, page);
    if r.nextPage.Some? {
      FollowPagesFrom(matches, page + 1);
      var start := (page - 1) * PageSize;
      assert matches[start..] == matches[start .. start + PageSize] + matches[start + PageSize..];
    }
  }

  /** Starting from the first page, search paging returns every match exactly once, in order. */
  lemma FollowPagesFromFirst<F>(matches: seq<F>)
    ensures FollowPages(matches, 1) == matches
  {
    FollowPagesFrom(matches, 1);
  }
}
