/** The decisions of the HTTP handlers: browsing a folder, streaming a media
    file and its subtitle, artwork, trading the PIN for a folder token, the
    admin rescan, and the root row written at start-up. Each handler is a
    function of the catalog, the request and the time to a `Response`; the
    two that write the catalog are methods on the `Store`. */
module Endpoints {
  import opened Common
  import opened Config
  import opened Paths
  import opened Classify
  import opened Lookup
  import opened Catalog
  import opened Token
  import opened Gateway
  import opened Tree
  import opened Scan

  /** A row in a listing: its id and name. */
  datatype Entry = Entry(id: int, name: string)

  /** What a handler answers. `NotAuthorized` is the `{"authorized": false}`
      body of a browse; `Unauthorized` is status 401; `File` is a file served
      from disk. */
  datatype Response =
    | Listing(dir: Entry, isKids: bool, subdirs: set<Entry>, media: set<Entry>)
    | NotAuthorized
    | File(path: Path)
    | Issued(token: string)
    | Rescanned(count: nat, full: bool)
    | NotFound
    | Unauthorized
    | BadRequest

  /** The folders whose parent is `folderId`. */
  function SubfolderEntries(t: Tables, folderId: int): (es: set<Entry>)
    ensures forall id | id in t.folders && t.folders[id].parentId == Some(folderId) ::
              Entry(id, t.folders[id].name) in es
    ensures forall e | e in es :: e.id in t.folders && t.folders[e.id].parentId == Some(folderId)
                                  && e.name == t.folders[e.id].name
  {
    set id | id in t.folders && t.folders[id].parentId == Some(folderId) :: Entry(id, t.folders[id].name)
  }

  /** The media rows that belong to `folderId`. */
  function MediaEntries(t: Tables, folderId: int): (es: set<Entry>)
    ensures forall id | id in t.media && t.media[id].folderId == folderId :: Entry(id, t.media[id].name) in es
    ensures forall e | e in es :: e.id in t.media && t.media[e.id].folderId == folderId
                                  && e.name == t.media[e.id].name
  {
    set id | id in t.media && t.media[id].folderId == folderId :: Entry(id, t.media[id].name)
  }

  /** The folder a browse asks for: the given id, or else the root's. */
  function BrowseTarget(cfg: Settings, t: Tables, dirId: Option<int>): Option<int> {
    if dirId.Some? then dirId
    else if cfg.libraryRoot in t.folderIds then Some(t.folderIds[cfg.libraryRoot])
    else None
  }

  /** `api_browse(dir_id)`: a folder that needs a token is listed only for a
      request that carries a valid one for it; a listing describes the
      folder and exactly its sub-folders and media rows. */
  function ApiBrowse(cfg: Settings, t: Tables, dirId: Option<int>, req: Request, now: int, mac: Mac): (r: Response)
    ensures r.Listing? ==>
      && r.dir.id in t.folders
      && (dirId.Some? ==> r.dir.id == dirId.value)
      && (dirId.None? ==> cfg.libraryRoot in t.folderIds && r.dir.id == t.folderIds[cfg.libraryRoot])
      && (FolderRequiresAuth(t, r.dir.id) ==> CheckRequestAuthorized(req, r.dir.id, now, cfg.secretKey, mac))
      && r.dir.name == t.folders[r.dir.id].name && r.isKids == t.folders[r.dir.id].isKids
      && r.subdirs == SubfolderEntries(t, r.dir.id) && r.media == MediaEntries(t, r.dir.id)
    ensures r.NotAuthorized? <==>
      && BrowseTarget(cfg, t, dirId).Some?
      && FolderRequiresAuth(t, BrowseTarget(cfg, t, dirId).value)
      && !CheckRequestAuthorized(req, BrowseTarget(cfg, t, dirId).value, now, cfg.secretKey, mac)
    ensures r.NotFound? <==> BrowseTarget(cfg, t, dirId).None? || BrowseTarget(cfg, t, dirId).value !in t.folders
    ensures r.Listing? || r.NotAuthorized? || r.NotFound?
  {
    match BrowseTarget(cfg, t, dirId)
    case None => NotFound
    case Some(id) =>
      if FolderRequiresAuth(t, id) && !CheckRequestAuthorized(req, id, now, cfg.secretKey, mac) then NotAuthorized
      else if id !in t.folders then NotFound
      else Listing(Entry(id, t.folders[id].name), t.folders[id].isKids, SubfolderEntries(t, id), MediaEntries(t, id))
  }

  /** The media row and the gate shared by streaming and subtitles: `None`
      when the row exists and the request may read its folder. */
  function MediaGate(cfg: Settings, t: Tables, mediaId: int, req: Request, now: int, mac: Mac): (r: Option<Response>)
    ensures r.None? ==> mediaId in t.media
    ensures r.Some? ==> r.value == NotFound || r.value == Unauthorized
  {
    if mediaId !in t.media then Some(NotFound)
    else
      var folderId := t.media[mediaId].folderId;
      if FolderRequiresAuth(t, folderId) && !CheckRequestAuthorized(req, folderId, now, cfg.secretKey, mac)
      then Some(Unauthorized)
      else None
  }

  /** The request may read the media row `mediaId`. */
  predicate MayRead(cfg: Settings, t: Tables, mediaId: int, req: Request, now: int, mac: Mac)
    requires mediaId in t.media
  {
    var folderId := t.media[mediaId].folderId;
    FolderRequiresAuth(t, folderId) ==> CheckRequestAuthorized(req, folderId, now, cfg.secretKey, mac)
  }

  /** `api_stream(media_id)`: the file is served only if its row exists, the
      request may read its folder, and it is on disk. */
  function ApiStream(cfg: Settings, t: Tables, mediaId: int, req: Request, now: int, mac: Mac,
                     exists_: Path -> bool): (r: Response)
    ensures r.File? <==> mediaId in t.media && MayRead(cfg, t, mediaId, req, now, mac) && exists_(t.media[mediaId].path)
    ensures r.File? ==> r.path == t.media[mediaId].path
    ensures r.Unauthorized? <==> mediaId in t.media && !MayRead(cfg, t, mediaId, req, now, mac)
    ensures r.File? || r.Unauthorized? || r.NotFound?
  {
    match MediaGate(cfg, t, mediaId, req, now, mac)
    case Some(refusal) => refusal
    case None =>
      var p := t.media[mediaId].path;
      if !exists_(p) then NotFound else File(p)
  }

  /** `api_subtitle(media_id)` with subtitles looked up beside the media file
      under its own stem: served only under the same gate as the stream. */
  function ApiSubtitle(cfg: Settings, t: Tables, mediaId: int, req: Request, now: int, mac: Mac,
                       present: Path -> bool): (r: Response)
    ensures r.File? <==> mediaId in t.media && MayRead(cfg, t, mediaId, req, now, mac)
                         && FindSubtitle(t.media[mediaId].path, present).Some?
    ensures r.File? ==> r.path == FindSubtitle(t.media[mediaId].path, present).value && present(r.path)
    ensures r.Unauthorized? <==> mediaId in t.media && !MayRead(cfg, t, mediaId, req, now, mac)
    ensures r.File? || r.Unauthorized? || r.NotFound?
  {
    match MediaGate(cfg, t, mediaId, req, now, mac)
    case Some(refusal) => refusal
    case None =>
      match FindSubtitle(t.media[mediaId].path, present)
      case None => NotFound
      case Some(s) => File(s)
  }

  /** `api_subtitle(media_id)` as the server computes its candidates. */
  function ApiSubtitleAsWritten(cfg: Settings, t: Tables, mediaId: int, req: Request, now: int, mac: Mac,
                                present: Path -> bool): (r: Response)
    ensures r.File? ==> mediaId in t.media && MayRead(cfg, t, mediaId, req, now, mac) && present(r.path)
  {
    match MediaGate(cfg, t, mediaId, req, now, mac)
    case Some(refusal) => refusal
    case None =>
      match FirstExisting(SubtitleCandidatesAsWritten(t.media[mediaId].path), present)
      case None => NotFound
      case Some(s) => File(s)
  }

  /** `api_art(name)`: the base name of the request, stripped, looked up in
      the images directory as given and then as its stem with each artwork
      suffix. What is served is a file directly inside the images
      directory. */
  function ApiArt(cfg: Settings, name: string, isFile: Path -> bool): (r: Response)
    ensures r.BadRequest? <==> Strip(Basename(name)) == ""
    ensures r.File? ==> isFile(r.path) && Parent(r.path) == cfg.libraryRoot + [ImagesDir]
                        && |r.path| == |cfg.libraryRoot| + 2
    ensures var base := Strip(Basename(name)); var cands := ArtCandidates(cfg.libraryRoot, base);
      && (base != "" ==> (r.NotFound? <==> forall i | 0 <= i < |cands| :: !isFile(cands[i])))
      && (r.File? ==> exists i | 0 <= i < |cands| :: r.path == cands[i] && forall j | 0 <= j < i :: !isFile(cands[j]))
    ensures r.File? || r.BadRequest? || r.NotFound?
  {
    var base := Strip(Basename(name));
    if base == "" then BadRequest
    else
      var cands := ArtCandidates(cfg.libraryRoot, base);
      match FirstExisting(cands, isFile)
      case None => NotFound
      case Some(p) =>
        assert p in cands;
        File(p)
  }

  /** `api_auth_folder(dir_id, pin)`: the right PIN buys a token for the
      folder, valid for the configured number of hours. */
  function ApiAuthFolder(cfg: Settings, dirId: int, pin: string, now: int, mac: Mac): (r: Response)
    ensures r.Unauthorized? <==> pin != cfg.parentalPin
    ensures r.Issued? ==> forall at | at <= now + cfg.folderTokenHours * SecondsPerHour ::
                            VerifyFolderToken(r.token, dirId, at, cfg.secretKey, mac)
    ensures r.Issued? ==> forall at | at > now + cfg.folderTokenHours * SecondsPerHour ::
                            !VerifyFolderToken(r.token, dirId, at, cfg.secretKey, mac)
    ensures r.Issued? || r.Unauthorized?
  {
    if pin != cfg.parentalPin then Unauthorized
    else
      var hours := cfg.folderTokenHours;
      var token := MakeFolderToken(dirId, hours, now, cfg.secretKey, mac);
      assert forall at | at <= now + hours * SecondsPerHour :: VerifyFolderToken(token, dirId, at, cfg.secretKey, mac) by {
        forall at | at <= now + hours * SecondsPerHour
          ensures VerifyFolderToken(token, dirId, at, cfg.secretKey, mac)
        {
          IssuedTokenVerifies(dirId, hours, now, at, cfg.secretKey, mac);
        }
      }
      assert forall at | at > now + hours * SecondsPerHour :: !VerifyFolderToken(token, dirId, at, cfg.secretKey, mac) by {
        forall at | at > now + hours * SecondsPerHour
          ensures !VerifyFolderToken(token, dirId, at, cfg.secretKey, mac)
        {
          IssuedTokenExpires(dirId, hours, now, at, cfg.secretKey, mac);
        }
      }
      Issued(token)
  }

  /** `api_admin_rescan(full)`: only the admin key may start a scan; without
      it nothing changes. */
  method ApiAdminRescan(store: Store, cfg: Settings, present: Path -> bool, tree: Dir,
                        full: bool, adminKey: Option<string>) returns (r: Response)
    requires store.Valid()
    modifies store
    ensures store.Valid()
    ensures adminKey != Some(cfg.adminKey) ==> r == Unauthorized && store.View() == old(store.View())
    ensures adminKey == Some(cfg.adminKey) ==>
      && r == Rescanned(VideoCount(Walk(cfg, cfg.libraryRoot, tree)), full)
      && ScannedFrom(cfg, present, if full then NoTables else old(store.View()), store.View(),
                     Walk(cfg, cfg.libraryRoot, tree))
  {
    if adminKey != Some(cfg.adminKey) {
      return Unauthorized;
    }
    var count := ScanLibrary(store, cfg, present, tree, full);
    r := Rescanned(count, full);
  }

  /** `ensure_root_row()`: a catalog without a row for the library root gets
      one, classified; a catalog that has one is left alone. */
  method EnsureRootRow(store: Store, cfg: Settings) returns (ghost rootId: int)
    requires store.Valid()
    modifies store
    ensures store.Valid()
    ensures cfg.libraryRoot in old(store.folderIds) ==> store.View() == old(store.View())
    ensures cfg.libraryRoot !in old(store.folderIds) ==>
      && rootId !in old(store.folders)
      && store.folderIds == old(store.folderIds)[cfg.libraryRoot := rootId]
      && store.folders == old(store.folders)[rootId :=
           Folder(cfg.libraryRoot, FolderName(cfg.libraryRoot, cfg.libraryRoot), None,
                  IsKidsPath(cfg, cfg.libraryRoot), None)]
      && store.mediaIds == old(store.mediaIds) && store.media == old(store.media)
    ensures RootRow(cfg, store.View()) || cfg.libraryRoot in old(store.folderIds)
  {
    rootId := 0;
    if cfg.libraryRoot !in store.folderIds {
      var id := store.UpsertFolder(cfg, cfg.libraryRoot, None);
      store.SetIsKids(id, IsKidsPath(cfg, cfg.libraryRoot));
      rootId := id;
    }
  }

  // ---------------------------------------------------------------------
  // Properties

  /** A folder marked for children is listed for any request, with or
      without a token. */
  lemma KidsFolderOpenToAll(cfg: Settings, t: Tables, id: int, req: Request, now: int, mac: Mac)
    requires id in t.folders && t.folders[id].isKids
    ensures ApiBrowse(cfg, t, Some(id), req, now, mac).Listing?
  {
  }

  /** A restricted folder is not listed for a request without a token. */
  lemma RestrictedFolderNeedsToken(cfg: Settings, t: Tables, id: int, req: Request, now: int, mac: Mac)
    requires id in t.folders && !t.folders[id].isKids
    requires "authorization" !in req.headers && "token" !in req.query
    ensures ApiBrowse(cfg, t, Some(id), req, now, mac) == NotAuthorized
  {
    NoTokenNeverAuthorized(req, id, now, cfg.secretKey, mac);
  }

  /** An unknown folder id is "not found" whatever the request carries. */
  lemma UnknownFolderNotFound(cfg: Settings, t: Tables, id: int, req: Request, now: int, mac: Mac)
    requires id !in t.folders
    ensures ApiBrowse(cfg, t, Some(id), req, now, mac) == NotFound
  {
  }

  /** The PIN flow end to end: the token bought with the PIN for a folder,
      sent back as a bearer header, lists the folder and streams its media
      files that are on disk until it expires. */
  lemma PinTokenOpensFolder(cfg: Settings, t: Tables, id: int, mediaId: int, issued: int, now: int, mac: Mac,
                            exists_: Path -> bool)
    requires id in t.folders
    requires now <= Expiry(issued, cfg.folderTokenHours)
    ensures ApiAuthFolder(cfg, id, cfg.parentalPin, issued, mac).Issued?
    ensures var req := Request(map["authorization" := "Bearer " + ApiAuthFolder(cfg, id, cfg.parentalPin, issued, mac).token], map[]);
      && ApiBrowse(cfg, t, Some(id), req, now, mac).Listing?
      && (mediaId in t.media && t.media[mediaId].folderId == id && exists_(t.media[mediaId].path) ==>
            ApiStream(cfg, t, mediaId, req, now, mac, exists_) == File(t.media[mediaId].path))
  {
    IssuedTokenAuthorizes(id, cfg.folderTokenHours, issued, now, cfg.secretKey, mac, map[]);
  }

  /** After a scan, a folder needs a token exactly when the classification
      rules do not mark its path as kids-safe. */
  lemma ScannedFolderGate(cfg: Settings, present: Path -> bool, t: Tables, q: Path)
    requires FolderScanned(cfg, present, t, q)
    ensures FolderRequiresAuth(t, t.folderIds[q]) <==> !IsKidsPath(cfg, q)
  {
  }

  /** After a scan, browsing a folder lists each sub-directory the scan
      reached and each video file it met in the folder. */
  lemma ScannedChildrenListed(cfg: Settings, present: Path -> bool, t: Tables, q: Path, child: Path, video: Path,
                              req: Request, now: int, mac: Mac)
    requires FolderScanned(cfg, present, t, q)
    requires ApiBrowse(cfg, t, Some(t.folderIds[q]), req, now, mac).Listing?
    requires FolderIndexOk(t.folderIds, t.folders)
    ensures child != cfg.libraryRoot && Parent(child) == q && FolderScanned(cfg, present, t, child) ==>
      Entry(t.folderIds[child], FolderName(child, cfg.libraryRoot))
        in ApiBrowse(cfg, t, Some(t.folderIds[q]), req, now, mac).subdirs
    ensures Parent(video) == q && MediaScanned(t, video) ==>
      Entry(t.mediaIds[video], Name(video)) in ApiBrowse(cfg, t, Some(t.folderIds[q]), req, now, mac).media
  {
  }

  /** The subtitle of `Movie.2019.mp4` is `Movie.2019.srt`. The server, which
      strips one suffix and then replaces the next, asks for `Movie.srt`
      instead and answers "not found" although the subtitle is there. */
  lemma SubtitleAsWrittenMissesDottedStem(cfg: Settings, t: Tables, mediaId: int, req: Request, now: int, mac: Mac)
    requires mediaId in t.media && t.media[mediaId].path == ["lib", "Movie.2019.mp4"]
    requires MayRead(cfg, t, mediaId, req, now, mac)
    ensures ApiSubtitleAsWritten(cfg, t, mediaId, req, now, mac, p => p == ["lib", "Movie.2019.srt"]) == NotFound
    ensures ApiSubtitle(cfg, t, mediaId, req, now, mac, p => p == ["lib", "Movie.2019.srt"])
            == File(["lib", "Movie.2019.srt"])
  {
    var present := (p: Path) => p == ["lib", "Movie.2019.srt"];
    var p: Path := ["lib", "Movie.2019.mp4"];
    SubtitleAsWrittenDropsInnerSuffix();
    var asWritten := SubtitleCandidatesAsWritten(p);
    assert !present(asWritten[0]) && !present(asWritten[1]);
    assert FirstPresentFrom(asWritten, present, 0) == None;
    var fixed := SubtitleCandidates(p);
    assert present(fixed[0]);
    assert FirstPresentFrom(fixed, present, 0) == Some(0);
  }

  /** The corrected subtitle lookup finds a subtitle that shares the media
      file's stem, for every media file, as long as it exists. */
  lemma SubtitleBesideMediaFound(cfg: Settings, t: Tables, mediaId: int, req: Request, now: int, mac: Mac,
                                 present: Path -> bool)
    requires mediaId in t.media && MayRead(cfg, t, mediaId, req, now, mac)
    requires var p := t.media[mediaId].path; Name(p) != "" && present(Parent(p) + [Stem(Name(p)) + ".srt"])
    ensures ApiSubtitle(cfg, t, mediaId, req, now, mac, present).File?
  {
    var p := t.media[mediaId].path;
    var cands := SubtitleCandidates(p);
    SubtitleCandidatesShareStem(p, 0);
    assert cands[0] == WithSuffix(p, SubExts[0]) == Parent(p) + [Stem(Name(p)) + ".srt"];
    FirstExistingIsFirst(cands, present, 0);
  }
}
