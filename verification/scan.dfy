/** The library scan: walk the tree top-down, give every directory reached a
    folder row (name, parent, classification, poster) and every video file a
    media row, and count the video files. */
module Scan {
  import opened Common
  import opened Config
  import opened Paths
  import opened Classify
  import opened Lookup
  import opened Catalog
  import opened Tree

  /** Ids already in `a` are kept in `b`. */
  predicate KeepsIds(a: map<Path, int>, b: map<Path, int>) {
    forall p | p in a :: p in b && b[p] == a[p]
  }

  /** The row of the directory at `q` is as the scan leaves it. */
  predicate FolderScanned(cfg: Settings, present: Path -> bool, t: Tables, q: Path) {
    && q in t.folderIds && t.folderIds[q] in t.folders
    && var row := t.folders[t.folderIds[q]];
    && row.name == FolderName(q, cfg.libraryRoot)
    && row.isKids == IsKidsPath(cfg, q)
    && row.poster == FindPoster(q, present)
    && (q == cfg.libraryRoot ==> row.parentId == None)
    && (q != cfg.libraryRoot ==> Parent(q) in t.folderIds && row.parentId == Some(t.folderIds[Parent(q)]))
  }

  /** The row of the video file at `q` names it and points at its directory. */
  predicate MediaScanned(t: Tables, q: Path) {
    && q in t.mediaIds && t.mediaIds[q] in t.media
    && Parent(q) in t.folderIds
    && t.media[t.mediaIds[q]] == MediaItem(q, Name(q), t.folderIds[Parent(q)])
  }

  /** The videos and their number among the first `i + 1` files. */
  lemma VideosOfPrefix(d: Path, files: seq<string>, i: nat)
    requires i < |files|
    ensures VideosIn(d, files[..i + 1])
            == VideosIn(d, files[..i]) + (if IsVideo(d + [files[i]]) then {d + [files[i]]} else {})
    ensures CountVideos(d, files[..i + 1])
            == CountVideos(d, files[..i]) + (if IsVideo(d + [files[i]]) then 1 else 0)
  {
    assert files[..i + 1][..i] == files[..i];
  }

  /** The media tables `(ids, rows)` are `(ids0, rows0)` with the videos in
      `seen` given rows pointing at `folderId`: paths already known keep
      their ids, new paths are added, other rows are untouched. */
  predicate MediaUpserted(ids0: map<Path, int>, rows0: map<int, MediaItem>,
                          ids: map<Path, int>, rows: map<int, MediaItem>,
                          seen: set<Path>, folderId: int) {
    && ids.Keys == ids0.Keys + seen
    && KeepsIds(ids0, ids)
    && (forall q | q in seen :: ids[q] in rows && rows[ids[q]] == MediaItem(q, Name(q), folderId))
    && (forall p | p in ids0 && p !in seen :: ids[p] in rows && ids0[p] in rows0 && rows[ids[p]] == rows0[ids0[p]])
  }

  /** Upserting one more video extends what has been upserted. */
  lemma MediaUpsertedStep(ids0: map<Path, int>, rows0: map<int, MediaItem>,
                          ids1: map<Path, int>, rows1: map<int, MediaItem>,
                          ids2: map<Path, int>, rows2: map<int, MediaItem>,
                          seen: set<Path>, p: Path, folderId: int)
    requires MediaUpserted(ids0, rows0, ids1, rows1, seen, folderId)
    requires MediaUpserted(ids1, rows1, ids2, rows2, {p}, folderId)
    requires MediaIndexOk(ids1, rows1)
    ensures MediaUpserted(ids0, rows0, ids2, rows2, seen + {p}, folderId)
  {
  }

  /** The effect of `Store.UpsertMedia` on the media tables, in the terms
      above. */
  lemma UpsertMediaUpserts(ids1: map<Path, int>, rows1: map<int, MediaItem>,
                           ids2: map<Path, int>, rows2: map<int, MediaItem>, p: Path, folderId: int)
    requires MediaIndexOk(ids1, rows1)
    requires p in ids1 ==> ids2 == ids1 && rows2 == rows1[ids1[p] := MediaItem(p, Name(p), folderId)]
    requires p !in ids1 ==> exists id | id !in rows1 ::
      ids2 == ids1[p := id] && rows2 == rows1[id := MediaItem(p, Name(p), folderId)]
    ensures MediaUpserted(ids1, rows1, ids2, rows2, {p}, folderId)
  {
  }

  /** The `i`-th file of the directory at `d`: a video gets (or keeps) its
      media row, pointing at `folderId`, and is counted; any other file is
      passed over. */
  method UpsertFile(store: Store, d: Path, files: seq<string>, i: nat, folderId: int,
                    ghost ids0: map<Path, int>, ghost rows0: map<int, MediaItem>) returns (counted: nat)
    requires store.Valid() && i < |files|
    requires MediaUpserted(ids0, rows0, store.mediaIds, store.media, VideosIn(d, files[..i]), folderId)
    modifies store
    ensures store.Valid()
    ensures counted + CountVideos(d, files[..i]) == CountVideos(d, files[..i + 1])
    ensures store.folderIds == old(store.folderIds) && store.folders == old(store.folders)
    ensures MediaUpserted(ids0, rows0, store.mediaIds, store.media, VideosIn(d, files[..i + 1]), folderId)
  {
    VideosOfPrefix(d, files, i);
    var p := d + [files[i]];
    counted := 0;
    if IsVideo(p) {
      ghost var ids1, rows1 := store.mediaIds, store.media;
      var _ := store.UpsertMedia(p, folderId);
      UpsertMediaUpserts(ids1, rows1, store.mediaIds, store.media, p, folderId);
      MediaUpsertedStep(ids0, rows0, ids1, rows1, store.mediaIds, store.media, VideosIn(d, files[..i]), p, folderId);
      assert VideosIn(d, files[..i + 1]) == VideosIn(d, files[..i]) + {p};
      counted := 1;
    } else {
      assert VideosIn(d, files[..i + 1]) == VideosIn(d, files[..i]);
    }
  }

  /** Every file of the directory at `d`, in listing order: a video file gets
      (or keeps) its media row, pointing at `folderId`; the result is the
      number of video files. */
  method UpsertVideos(store: Store, d: Path, folderId: int, files: seq<string>) returns (n: nat)
    requires store.Valid()
    modifies store
    ensures store.Valid()
    ensures n == CountVideos(d, files)
    ensures store.folderIds == old(store.folderIds) && store.folders == old(store.folders)
    ensures MediaUpserted(old(store.mediaIds), old(store.media), store.mediaIds, store.media,
                          VideosIn(d, files), folderId)
  {
    n := 0;
    var i := 0;
    while i < |files|
      invariant 0 <= i <= |files|
      invariant store.Valid()
      invariant n == CountVideos(d, files[..i])
      invariant store.folderIds == old(store.folderIds) && store.folders == old(store.folders)
      invariant MediaUpserted(old(store.mediaIds), old(store.media), store.mediaIds, store.media,
                              VideosIn(d, files[..i]), folderId)
    {
      var counted := UpsertFile(store, d, files, i, folderId, old(store.mediaIds), old(store.media));
      n := n + counted;
      i := i + 1;
    }
    assert files[..i] == files;
  }

  // ---------------------------------------------------------------------
  // The walk

  const NoTables := Tables(map[], map[], map[], map[])

  /** The root's row: its name, no parent, and its classification. */
  predicate RootRow(cfg: Settings, t: Tables) {
    var root := cfg.libraryRoot;
    && root in t.folderIds && t.folderIds[root] in t.folders
    && t.folders[t.folderIds[root]].name == FolderName(root, root)
    && t.folders[t.folderIds[root]].parentId == None
    && t.folders[t.folderIds[root]].isKids == IsKidsPath(cfg, root)
  }

  /** The folder index part way through a scan that started from `t0` and
      has reached the directories `visited`: these and the root have rows,
      known paths keep their ids, and `pathToId` maps exactly the root and
      the reached paths to their ids. */
  predicate FolderKeys(cfg: Settings, t0: Tables, t: Tables, visited: set<Path>, pathToId: map<Path, int>) {
    && t.folderIds.Keys == t0.folderIds.Keys + {cfg.libraryRoot} + visited
    && KeepsIds(t0.folderIds, t.folderIds)
    && pathToId.Keys == {cfg.libraryRoot} + visited
    && KeepsIds(pathToId, t.folderIds)
  }

  predicate AllScanned(cfg: Settings, present: Path -> bool, t: Tables, visited: set<Path>) {
    forall q | q in visited :: FolderScanned(cfg, present, t, q)
  }

  /** The rows of known paths other than the root that the scan has not
      reached are as they were in `t0`. */
  predicate OthersKept(cfg: Settings, t0: Tables, t: Tables, visited: set<Path>) {
    forall p | p in t0.folderIds && p != cfg.libraryRoot && p !in visited ::
      && p in t.folderIds && t.folderIds[p] in t.folders && t0.folderIds[p] in t0.folders
      && t.folders[t.folderIds[p]] == t0.folders[t0.folderIds[p]]
  }

  /** The folder tables part way through a scan. */
  predicate FolderState(cfg: Settings, present: Path -> bool, t0: Tables, t: Tables,
                        visited: set<Path>, pathToId: map<Path, int>) {
    && FolderKeys(cfg, t0, t, visited, pathToId)
    && RootRow(cfg, t)
    && AllScanned(cfg, present, t, visited)
    && OthersKept(cfg, t0, t, visited)
  }

  /** The media tables part way through a scan that started from `t0` and
      has met the video files `videos`. */
  predicate MediaState(t0: Tables, t: Tables, videos: set<Path>) {
    && t.mediaIds.Keys == t0.mediaIds.Keys + videos
    && KeepsIds(t0.mediaIds, t.mediaIds)
    && (forall q | q in videos :: MediaScanned(t, q))
    && (forall p | p in t0.mediaIds && p !in videos ::
          && p in t.mediaIds && t.mediaIds[p] in t.media && t0.mediaIds[p] in t0.media
          && t.media[t.mediaIds[p]] == t0.media[t0.mediaIds[p]])
  }

  /** Changes to the folder tables that keep every id leave the media state
      as it was. */
  lemma MediaStateKeepsFolders(t0: Tables, t1: Tables, t2: Tables, videos: set<Path>)
    requires MediaState(t0, t1, videos)
    requires KeepsIds(t1.folderIds, t2.folderIds)
    requires t2.mediaIds == t1.mediaIds && t2.media == t1.media
    ensures MediaState(t0, t2, videos)
  {
    forall q | q in videos ensures MediaScanned(t2, q) {
      assert MediaScanned(t1, q);
    }
  }

  /** The videos of one more directory, upserted with that directory's id,
      extend the media state. */
  lemma MediaStateStep(t0: Tables, t1: Tables, t2: Tables, videos: set<Path>,
                       d: Path, files: seq<string>, folderId: int)
    requires MediaState(t0, t1, videos)
    requires MediaUpserted(t1.mediaIds, t1.media, t2.mediaIds, t2.media, VideosIn(d, files), folderId)
    requires t2.folderIds == t1.folderIds && d in t1.folderIds && t1.folderIds[d] == folderId
    ensures MediaState(t0, t2, videos + VideosIn(d, files))
  {
    forall q | q in VideosIn(d, files) ensures MediaScanned(t2, q) {
      VideosInParent(d, files, q);
    }
    forall q | q in videos && q !in VideosIn(d, files) ensures MediaScanned(t2, q) {
      assert MediaScanned(t1, q);
    }
  }

  /** The row of the directory at `d`, as the scan finds or creates it: a
      directory met before keeps the id in `pathToId`; any other gets an
      upserted row under the id of its parent, which the walk has always
      met already. */
  method FolderRow(store: Store, cfg: Settings, d: Path,
                   pathToId: map<Path, int>)
    returns (folderId: int, pathToId': map<Path, int>)
    requires store.Valid()
    requires cfg.libraryRoot in pathToId && KeepsIds(pathToId, store.folderIds)
    requires d != cfg.libraryRoot ==> Parent(d) in pathToId
    modifies store
    ensures store.Valid()
    ensures store.mediaIds == old(store.mediaIds) && store.media == old(store.media)
    ensures KeepsIds(old(store.folderIds), store.folderIds)
    ensures pathToId' == pathToId[d := folderId]
    ensures d in store.folderIds && store.folderIds[d] == folderId
    ensures d !in old(store.folderIds) ==> folderId !in old(store.folders)
    ensures store.folderIds.Keys == old(store.folderIds).Keys + {d}
    ensures d !in pathToId ==>
      && store.folders[folderId].name == FolderName(d, cfg.libraryRoot)
      && Parent(d) in store.folderIds && store.folders[folderId].parentId == Some(store.folderIds[Parent(d)])
    ensures forall id | id in old(store.folders) && id != folderId :: id in store.folders && store.folders[id] == old(store.folders)[id]
    ensures d in pathToId ==> store.folders == old(store.folders)
  {
    if d in pathToId {
      folderId := pathToId[d];
      pathToId' := pathToId;
    } else {
      var parent := Parent(d);
      if parent !in pathToId {
        assert false;
      }
      var parentId := pathToId[parent];
      folderId := store.UpsertFolder(cfg, d, Some(parentId));
      pathToId' := pathToId[d := folderId];
    }
  }

  /** Through the path index, the row a scan step writes belongs to no
      other path. */
  lemma OtherPathsOtherIds(ids: map<Path, int>, rows: map<int, Folder>, d: Path, folderId: int)
    requires FolderIndexOk(ids, rows)
    requires d in ids ==> ids[d] == folderId
    requires d !in ids ==> folderId !in rows
    ensures forall q | q in ids && q != d :: ids[q] != folderId
  {
    forall q | q in ids && q != d ensures ids[q] != folderId {
      assert rows[ids[q]].path == q;
    }
  }

  /** A scanned row that a step does not write stays scanned. */
  lemma ScannedKept(cfg: Settings, present: Path -> bool, t1: Tables, t2: Tables, q: Path, folderId: int)
    requires FolderScanned(cfg, present, t1, q) && t1.folderIds[q] != folderId
    requires KeepsIds(t1.folderIds, t2.folderIds)
    requires forall id | id in t1.folders && id != folderId :: id in t2.folders && t2.folders[id] == t1.folders[id]
    ensures FolderScanned(cfg, present, t2, q)
  {
  }

  /** What one scan step does to the folder tables, from `t1` to `t2`, for
      the directory `d` whose row has id `folderId`: no other path's row is
      written, ids are kept, `d` is indexed, and its row is classified and
      given its poster; a directory met for the first time gets its name
      and parent. */
  predicate FolderStep(cfg: Settings, present: Path -> bool, t1: Tables, t2: Tables,
                       pathToId: map<Path, int>, d: Path, folderId: int) {
    && (forall q | q in t1.folderIds && q != d :: t1.folderIds[q] != folderId)
    && KeepsIds(t1.folderIds, t2.folderIds)
    && t2.folderIds.Keys == t1.folderIds.Keys + {d}
    && d in t2.folderIds && t2.folderIds[d] == folderId && folderId in t2.folders
    && (forall id | id in t1.folders && id != folderId :: id in t2.folders && t2.folders[id] == t1.folders[id])
    && t2.folders[folderId].isKids == IsKidsPath(cfg, d)
    && t2.folders[folderId].poster == FindPoster(d, present)
    && (d !in pathToId ==>
         && t2.folders[folderId].name == FolderName(d, cfg.libraryRoot)
         && Parent(d) in t2.folderIds && t2.folders[folderId].parentId == Some(t2.folderIds[Parent(d)]))
    && (d in pathToId ==>
         && folderId in t1.folders
         && t2.folders[folderId].name == t1.folders[folderId].name
         && t2.folders[folderId].parentId == t1.folders[folderId].parentId)
  }

  lemma FolderKeysStep(cfg: Settings, present: Path -> bool, t0: Tables, t1: Tables, t2: Tables,
                       visited: set<Path>, pathToId: map<Path, int>, d: Path, folderId: int)
    requires FolderKeys(cfg, t0, t1, visited, pathToId)
    requires FolderStep(cfg, present, t1, t2, pathToId, d, folderId)
    ensures FolderKeys(cfg, t0, t2, visited + {d}, pathToId[d := folderId])
  {
  }

  lemma RootRowStep(cfg: Settings, present: Path -> bool, t1: Tables, t2: Tables,
                    pathToId: map<Path, int>, d: Path, folderId: int)
    requires RootRow(cfg, t1) && cfg.libraryRoot in pathToId
    requires FolderStep(cfg, present, t1, t2, pathToId, d, folderId)
    ensures RootRow(cfg, t2)
  {
  }

  lemma AllScannedStep(cfg: Settings, present: Path -> bool, t1: Tables, t2: Tables,
                       visited: set<Path>, pathToId: map<Path, int>, d: Path, folderId: int)
    requires AllScanned(cfg, present, t1, visited) && RootRow(cfg, t1)
    requires cfg.libraryRoot in pathToId && (d != cfg.libraryRoot ==> Parent(d) in pathToId)
    requires KeepsIds(pathToId, t1.folderIds) && pathToId.Keys == {cfg.libraryRoot} + visited
    requires FolderStep(cfg, present, t1, t2, pathToId, d, folderId)
    ensures AllScanned(cfg, present, t2, visited + {d})
  {
    var root := cfg.libraryRoot;
    assert FolderScanned(cfg, present, t2, d) by {
      if d in pathToId && d != root {
        assert FolderScanned(cfg, present, t1, d);
      }
    }
    forall q | q in visited && q != d ensures FolderScanned(cfg, present, t2, q) {
      ScannedKept(cfg, present, t1, t2, q, folderId);
    }
  }

  lemma OthersKeptStep(cfg: Settings, present: Path -> bool, t0: Tables, t1: Tables, t2: Tables,
                       visited: set<Path>, pathToId: map<Path, int>, d: Path, folderId: int)
    requires OthersKept(cfg, t0, t1, visited) && KeepsIds(t0.folderIds, t1.folderIds)
    requires FolderStep(cfg, present, t1, t2, pathToId, d, folderId)
    ensures OthersKept(cfg, t0, t2, visited + {d})
  {
  }

  /** Reaching one more directory extends the folder state. */
  lemma FolderStateStep(cfg: Settings, present: Path -> bool, t0: Tables, t1: Tables, t2: Tables,
                        visited: set<Path>, pathToId: map<Path, int>, d: Path, folderId: int)
    requires FolderState(cfg, present, t0, t1, visited, pathToId)
    requires d != cfg.libraryRoot ==> Parent(d) in pathToId
    requires FolderStep(cfg, present, t1, t2, pathToId, d, folderId)
    ensures FolderState(cfg, present, t0, t2, visited + {d}, pathToId[d := folderId])
  {
    FolderKeysStep(cfg, present, t0, t1, t2, visited, pathToId, d, folderId);
    RootRowStep(cfg, present, t1, t2, pathToId, d, folderId);
    AllScannedStep(cfg, present, t1, t2, visited, pathToId, d, folderId);
    OthersKeptStep(cfg, present, t0, t1, t2, visited, pathToId, d, folderId);
  }

  lemma FolderStateOfMedia(cfg: Settings, present: Path -> bool, t0: Tables, t1: Tables, t2: Tables,
                           visited: set<Path>, pathToId: map<Path, int>)
    requires FolderState(cfg, present, t0, t1, visited, pathToId)
    requires t2.folderIds == t1.folderIds && t2.folders == t1.folders
    ensures FolderState(cfg, present, t0, t2, visited, pathToId)
  {
  }

  /** The three writes of a scan step to the folder tables (`t1` to `ta`:
      the row found or created; `ta` to `tb`: the classification; `tb` to
      `tc`: the poster) make up one `FolderStep`. */
  lemma FolderStepOfWrites(cfg: Settings, present: Path -> bool, pathToId: map<Path, int>, d: Path, folderId: int,
                           t1: Tables, ta: Tables, tb: Tables, tc: Tables)
    requires FolderIndexOk(t1.folderIds, t1.folders) && FolderIndexOk(ta.folderIds, ta.folders)
    requires cfg.libraryRoot in pathToId && KeepsIds(pathToId, t1.folderIds)
    requires KeepsIds(t1.folderIds, ta.folderIds)
    requires d in ta.folderIds && ta.folderIds[d] == folderId
    requires d !in t1.folderIds ==> folderId !in t1.folders
    requires ta.folderIds.Keys == t1.folderIds.Keys + {d}
    requires d != cfg.libraryRoot ==> Parent(d) in pathToId
    requires d !in pathToId ==>
      && ta.folders[folderId].name == FolderName(d, cfg.libraryRoot)
      && Parent(d) in ta.folderIds && ta.folders[folderId].parentId == Some(ta.folderIds[Parent(d)])
    requires forall id | id in t1.folders && id != folderId :: id in ta.folders && ta.folders[id] == t1.folders[id]
    requires d in pathToId ==> ta.folders == t1.folders
    requires tb.folderIds == ta.folderIds
    requires tb.folders == ta.folders[folderId := ta.folders[folderId].(isKids := IsKidsPath(cfg, d))]
    requires tc.folderIds == tb.folderIds
    requires tc.folders == tb.folders[folderId := tb.folders[folderId].(poster := FindPoster(d, present))]
    ensures FolderStep(cfg, present, t1, tc, pathToId, d, folderId)
  {
    OtherPathsOtherIds(t1.folderIds, t1.folders, d, folderId);
  }

  /** The folder part of one step of the walk, for the directory at `d`:
      its row is found or created, then its classification and its poster
      are recomputed. */
  method UpdateFolderRow(store: Store, cfg: Settings, present: Path -> bool, d: Path,
                         pathToId: map<Path, int>)
    returns (folderId: int, pathToId': map<Path, int>)
    requires store.Valid()
    requires cfg.libraryRoot in pathToId && KeepsIds(pathToId, store.folderIds)
    requires d != cfg.libraryRoot ==> Parent(d) in pathToId
    modifies store
    ensures store.Valid()
    ensures store.mediaIds == old(store.mediaIds) && store.media == old(store.media)
    ensures pathToId' == pathToId[d := folderId]
    ensures FolderStep(cfg, present, old(store.View()), store.View(), pathToId, d, folderId)
  {
    ghost var t1 := store.View();
    folderId, pathToId' := FolderRow(store, cfg, d, pathToId);
    ghost var ta := store.View();
    assert folderId in ta.folders;
    store.SetIsKids(folderId, IsKidsPath(cfg, d));
    ghost var tb := store.View();
    var poster := FindFirstExisting(PosterCandidates(d), present);
    store.SetPoster(folderId, poster);
    FolderStepOfWrites(cfg, present, pathToId, d, folderId, t1, ta, tb, store.View());
  }

  /** One step of the walk, for the directory at `d` with files `files`: its
      folder row is found or created, its classification and poster are
      recomputed, and its video files are upserted and counted. */
  method VisitDir(store: Store, cfg: Settings, present: Path -> bool, d: Path, files: seq<string>,
                  pathToId: map<Path, int>, ghost t0: Tables, ghost visited: set<Path>, ghost videos: set<Path>)
    returns (pathToId': map<Path, int>, n: nat)
    requires store.Valid()
    requires d != cfg.libraryRoot ==> Parent(d) in pathToId
    requires FolderState(cfg, present, t0, store.View(), visited, pathToId)
    requires MediaState(t0, store.View(), videos)
    modifies store
    ensures store.Valid()
    ensures n == CountVideos(d, files)
    ensures FolderState(cfg, present, t0, store.View(), visited + {d}, pathToId')
    ensures MediaState(t0, store.View(), videos + VideosIn(d, files))
  {
    ghost var t1 := store.View();
    var folderId;
    folderId, pathToId' := UpdateFolderRow(store, cfg, present, d, pathToId);
    ghost var t2 := store.View();
    FolderStateStep(cfg, present, t0, t1, t2, visited, pathToId, d, folderId);
    MediaStateKeepsFolders(t0, t1, t2, videos);
    n := UpsertVideos(store, d, folderId, files);
    MediaStateStep(t0, t2, store.View(), videos, d, files, folderId);
    FolderStateOfMedia(cfg, present, t0, t2, store.View(), visited + {d}, pathToId');
  }

  /** The root's row after `UpsertFolder` (from `t0` to `ta`) and the
      classification (from `ta` to `tb`): the state before the walk. */
  lemma RootRowState(cfg: Settings, present: Path -> bool, rootId: int, t0: Tables, ta: Tables, tb: Tables)
    requires FolderIndexOk(t0.folderIds, t0.folders) && MediaIndexOk(t0.mediaIds, t0.media)
    requires var root := cfg.libraryRoot;
      && (root in t0.folderIds ==>
           && rootId == t0.folderIds[root] && ta.folderIds == t0.folderIds
           && ta.folders == t0.folders[rootId := t0.folders[rootId].(name := FolderName(root, root), parentId := None)])
      && (root !in t0.folderIds ==>
           && rootId !in t0.folders && ta.folderIds == t0.folderIds[root := rootId]
           && ta.folders == t0.folders[rootId := Folder(root, FolderName(root, root), None, cfg.defaultIsKids, None)])
    requires ta.mediaIds == t0.mediaIds && ta.media == t0.media
    requires tb.folderIds == ta.folderIds && tb.mediaIds == ta.mediaIds && tb.media == ta.media
    requires tb.folders == ta.folders[rootId := ta.folders[rootId].(isKids := IsKidsPath(cfg, cfg.libraryRoot))]
    ensures FolderState(cfg, present, t0, tb, {}, map[cfg.libraryRoot := rootId])
    ensures MediaState(t0, tb, {})
  {
    var root := cfg.libraryRoot;
    assert FolderKeys(cfg, t0, tb, {}, map[root := rootId]);
    assert RootRow(cfg, tb);
    assert OthersKept(cfg, t0, tb, {}) by {
      OtherPathsOtherIds(t0.folderIds, t0.folders, root, rootId);
    }
  }

  /** The row of the library root, before the walk: upserted without a
      parent, and classified. */
  method RootRowInit(store: Store, cfg: Settings, present: Path -> bool) returns (rootId: int)
    requires store.Valid()
    modifies store
    ensures store.Valid()
    ensures FolderState(cfg, present, old(store.View()), store.View(), {}, map[cfg.libraryRoot := rootId])
    ensures MediaState(old(store.View()), store.View(), {})
  {
    ghost var t0 := store.View();
    rootId := store.UpsertFolder(cfg, cfg.libraryRoot, None);
    ghost var ta := store.View();
    store.SetIsKids(rootId, IsKidsPath(cfg, cfg.libraryRoot));
    RootRowState(cfg, present, rootId, t0, ta, store.View());
  }

  /** Popping the next directory from the stack and pushing its kept
      sub-directories in its place keeps the visits done and the walks still
      to do adding up to the whole walk. */
  lemma StackStep(cfg: Settings, w: seq<Visit>, done: seq<Visit>, todo: seq<Node>)
    requires todo != [] && done + Flatten(cfg, todo) == w
    ensures var v := Visit(todo[0].path, todo[0].dir.files);
      && |done| < |w|
      && (done + [v]) + Flatten(cfg, Children(todo[0].path, Kept(cfg, todo[0].dir.subdirs)) + todo[1..]) == w
  {
    FlattenUnfold(cfg, todo);
    var v := Visit(todo[0].path, todo[0].dir.files);
    var rest := Flatten(cfg, Children(todo[0].path, Kept(cfg, todo[0].dir.subdirs)) + todo[1..]);
    assert done + ([v] + rest) == (done + [v]) + rest;
  }

  /** The directories on the stack after a step all have their parent in
      `pathToId`, or are the root. */
  lemma ParentsKnown(root: Path, node: Node, rest: seq<Node>, pathToId: map<Path, int>)
    requires node.path in pathToId
    requires forall k | 0 <= k < |rest| :: rest[k].path != root ==> Parent(rest[k].path) in pathToId
    ensures var todo := Children(node.path, node.dir.subdirs) + rest;
      forall k | 0 <= k < |todo| :: todo[k].path != root ==> Parent(todo[k].path) in pathToId
  {
  }

  /** What a scan of the walk `w`, started from the tables `t0`, leaves:
      exactly the known paths and the visited directories have folder rows,
      known paths keep their ids, every visited directory's row is as the
      scan leaves it, the rows of known paths not visited are untouched, and
      likewise for the media rows of the video files met. */
  predicate ScannedFrom(cfg: Settings, present: Path -> bool, t0: Tables, t: Tables, w: seq<Visit>) {
    && t.folderIds.Keys == t0.folderIds.Keys + PathsOf(w)
    && KeepsIds(t0.folderIds, t.folderIds)
    && AllScanned(cfg, present, t, PathsOf(w))
    && OthersKept(cfg, t0, t, PathsOf(w))
    && MediaState(t0, t, VideoPathsOf(w))
  }

  /** The walk part way through: the visits `done` and the walks of the
      directories still on the stack `todo` add up to `w`, and every
      directory on the stack is the root or has its parent in `pathToId`. */
  predicate WalkInv(cfg: Settings, w: seq<Visit>, done: seq<Visit>, todo: seq<Node>, pathToId: map<Path, int>) {
    && done + Flatten(cfg, todo) == w
    && (forall k | 0 <= k < |todo| :: todo[k].path != cfg.libraryRoot ==> Parent(todo[k].path) in pathToId)
  }

  /** The tables are as the visits `done` leave them. */
  predicate TablesInv(cfg: Settings, present: Path -> bool, t0: Tables, t: Tables, done: seq<Visit>,
                      pathToId: map<Path, int>) {
    && FolderState(cfg, present, t0, t, PathsOf(done), pathToId)
    && MediaState(t0, t, VideoPathsOf(done))
  }

  /** The loop invariant of the scan; `count` is the number of video files
      met so far. */
  predicate ScanInv(cfg: Settings, present: Path -> bool, t0: Tables, t: Tables, w: seq<Visit>,
                    done: seq<Visit>, todo: seq<Node>, pathToId: map<Path, int>, count: nat) {
    && WalkInv(cfg, w, done, todo, pathToId)
    && TablesInv(cfg, present, t0, t, done, pathToId)
    && count == VideoCount(done)
  }

  /** The invariant holds before the walk, once the root has its row. */
  lemma ScanInvInit(cfg: Settings, present: Path -> bool, t0: Tables, t: Tables, tree: Dir, rootId: int)
    requires FolderState(cfg, present, t0, t, {}, map[cfg.libraryRoot := rootId])
    requires MediaState(t0, t, {})
    ensures ScanInv(cfg, present, t0, t, Walk(cfg, cfg.libraryRoot, tree), [],
                    [Node(cfg.libraryRoot, tree)], map[cfg.libraryRoot := rootId], 0)
  {
    assert Flatten(cfg, [Node(cfg.libraryRoot, tree)]) == Walk(cfg, cfg.libraryRoot, tree) + Flatten(cfg, []);
  }

  lemma WalkInvStep(cfg: Settings, w: seq<Visit>, done: seq<Visit>, todo: seq<Node>,
                    pathToId: map<Path, int>, pathToId': map<Path, int>)
    requires todo != [] && WalkInv(cfg, w, done, todo, pathToId)
    requires todo[0].path in pathToId' && pathToId.Keys <= pathToId'.Keys
    ensures var node := todo[0];
      WalkInv(cfg, w, done + [Visit(node.path, node.dir.files)],
              Children(node.path, Kept(cfg, node.dir.subdirs)) + todo[1..], pathToId')
    ensures |done| < |w|
  {
    var node := todo[0];
    StackStep(cfg, w, done, todo);
    var kept := Kept(cfg, node.dir.subdirs);
    ParentsKnown(cfg.libraryRoot, Node(node.path, Dir(node.dir.name, node.dir.files, kept)), todo[1..], pathToId');
  }

  lemma TablesInvStep(cfg: Settings, present: Path -> bool, t0: Tables, t: Tables, done: seq<Visit>,
                      v: Visit, pathToId: map<Path, int>)
    requires FolderState(cfg, present, t0, t, PathsOf(done) + {v.path}, pathToId)
    requires MediaState(t0, t, VideoPathsOf(done) + VideosIn(v.path, v.files))
    ensures TablesInv(cfg, present, t0, t, done + [v], pathToId)
  {
    assert (done + [v])[..|done|] == done;
  }

  lemma CountStep(done: seq<Visit>, v: Visit)
    ensures VideoCount(done + [v]) == VideoCount(done) + CountVideos(v.path, v.files)
  {
    assert (done + [v])[..|done|] == done;
  }

  /** One visit, as `VisitDir` performs it, keeps the invariant. */
  lemma ScanInvStep(cfg: Settings, present: Path -> bool, t0: Tables, t2: Tables, w: seq<Visit>,
                    done: seq<Visit>, todo: seq<Node>, pathToId: map<Path, int>, pathToId': map<Path, int>,
                    count: nat, n: nat)
    requires todo != [] && WalkInv(cfg, w, done, todo, pathToId) && count == VideoCount(done)
    requires todo[0].path in pathToId' && pathToId.Keys <= pathToId'.Keys
    requires n == CountVideos(todo[0].path, todo[0].dir.files)
    requires FolderState(cfg, present, t0, t2, PathsOf(done) + {todo[0].path}, pathToId')
    requires MediaState(t0, t2, VideoPathsOf(done) + VideosIn(todo[0].path, todo[0].dir.files))
    ensures var node := todo[0];
      ScanInv(cfg, present, t0, t2, w, done + [Visit(node.path, node.dir.files)],
              Children(node.path, Kept(cfg, node.dir.subdirs)) + todo[1..], pathToId', count + n)
    ensures |done| < |w|
  {
    var v := Visit(todo[0].path, todo[0].dir.files);
    WalkInvStep(cfg, w, done, todo, pathToId, pathToId');
    TablesInvStep(cfg, present, t0, t2, done, v, pathToId');
    CountStep(done, v);
  }

  /** One iteration of the walk: pop the next directory, visit it, and push
      its sub-directories that are not hidden, in listing order. */
  method ScanStep(store: Store, cfg: Settings, present: Path -> bool, todo: seq<Node>,
                  pathToId: map<Path, int>, count: nat,
                  ghost t0: Tables, ghost w: seq<Visit>, ghost done: seq<Visit>)
    returns (todo': seq<Node>, pathToId': map<Path, int>, count': nat, ghost done': seq<Visit>)
    requires store.Valid() && todo != []
    requires ScanInv(cfg, present, t0, store.View(), w, done, todo, pathToId, count)
    modifies store
    ensures store.Valid()
    ensures ScanInv(cfg, present, t0, store.View(), w, done', todo', pathToId', count')
    ensures |done| < |done'| <= |w|
  {
    var node := todo[0];
    ghost var t1 := store.View();
    var n;
    pathToId', n := VisitDir(store, cfg, present, node.path, node.dir.files, pathToId,
                             t0, PathsOf(done), VideoPathsOf(done));
    ScanInvStep(cfg, present, t0, store.View(), w, done, todo, pathToId, pathToId', count, n);
    count' := count + n;
    todo' := Children(node.path, Kept(cfg, node.dir.subdirs)) + todo[1..];
    done' := done + [Visit(node.path, node.dir.files)];
  }

  /** `scan_library(full_rescan)`: a full rescan first empties both tables;
      then the root gets its row, and the walk visits every directory not
      beneath a hidden name, top-down, with an explicit stack of directories
      still to visit. The result is the number of video files met. */
  method ScanLibrary(store: Store, cfg: Settings, present: Path -> bool, tree: Dir, full: bool)
    returns (count: nat)
    requires store.Valid()
    modifies store
    ensures store.Valid()
    ensures count == VideoCount(Walk(cfg, cfg.libraryRoot, tree))
    ensures ScannedFrom(cfg, present, if full then NoTables else old(store.View()), store.View(),
                        Walk(cfg, cfg.libraryRoot, tree))
  {
    if full {
      store.Clear();
    }
    ghost var t0 := store.View();
    var root := cfg.libraryRoot;
    var rootId := RootRowInit(store, cfg, present);
    var pathToId := map[root := rootId];
    ghost var w := Walk(cfg, root, tree);
    var todo := [Node(root, tree)];
    ghost var done: seq<Visit> := [];
    count := 0;
    ScanInvInit(cfg, present, t0, store.View(), tree, rootId);
    while todo != []
      invariant store.Valid()
      invariant ScanInv(cfg, present, t0, store.View(), w, done, todo, pathToId, count)
      invariant |done| <= |w|
      decreases |w| - |done|
    {
      todo, pathToId, count, done := ScanStep(store, cfg, present, todo, pathToId, count, t0, w, done);
    }
    ScanDone(cfg, present, t0, store.View(), w, done, pathToId, count);
  }

  /** At the end of the walk the state is what `ScannedFrom` describes. */
  lemma ScanDone(cfg: Settings, present: Path -> bool, t0: Tables, t: Tables, w: seq<Visit>,
                 done: seq<Visit>, pathToId: map<Path, int>, count: nat)
    requires w != [] && w[0].path == cfg.libraryRoot
    requires ScanInv(cfg, present, t0, t, w, done, [], pathToId, count)
    ensures count == VideoCount(w)
    ensures ScannedFrom(cfg, present, t0, t, w)
  {
    assert done == w;
    PathsOfMember(w, cfg.libraryRoot);
  }

  // ---------------------------------------------------------------------
  // Hidden directories

  /** A scan adds no folder row for a directory at or beneath a hidden name,
      and no media row for a file in one: every row it adds lies below the
      root through names that are not hidden. */
  lemma ScanSkipsHidden(cfg: Settings, present: Path -> bool, t0: Tables, t: Tables, tree: Dir)
    requires ScannedFrom(cfg, present, t0, t, Walk(cfg, cfg.libraryRoot, tree))
    ensures forall q | q in t.folderIds && q !in t0.folderIds :: UnderRootNotHidden(cfg, cfg.libraryRoot, q)
    ensures forall q | q in t.mediaIds && q !in t0.mediaIds ::
      q == Parent(q) + [Name(q)] && UnderRootNotHidden(cfg, cfg.libraryRoot, Parent(q))
  {
    var root := cfg.libraryRoot;
    var w := Walk(cfg, root, tree);
    assert UnderRootNotHidden(cfg, root, root);
    WalkAvoidsHidden(cfg, root, root, tree);
    forall q | q in t.folderIds && q !in t0.folderIds ensures UnderRootNotHidden(cfg, root, q) {
      PathsOfMember(w, q);
    }
    forall q | q in t.mediaIds && q !in t0.mediaIds
      ensures q == Parent(q) + [Name(q)] && UnderRootNotHidden(cfg, root, Parent(q))
    {
      VideoPathsOfMember(w, q);
      var i :| 0 <= i < |w| && q in VideosOf(w[i]);
      VideosInParent(w[i].path, w[i].files, q);
    }
  }

  // ---------------------------------------------------------------------
  // Rescanning an unchanged tree

  /** One folder row after a second scan of the same directories. */
  lemma FolderRowUnchanged(cfg: Settings, present: Path -> bool, t1: Tables, t2: Tables,
                           visited: set<Path>, id: int)
    requires cfg.libraryRoot in visited && t2.folderIds == t1.folderIds
    requires AllScanned(cfg, present, t1, visited) && AllScanned(cfg, present, t2, visited)
    requires OthersKept(cfg, t1, t2, visited)
    requires FolderIndexOk(t1.folderIds, t1.folders) && FolderIndexOk(t2.folderIds, t2.folders)
    requires id in t1.folders
    ensures id in t2.folders && t2.folders[id] == t1.folders[id]
  {
    var p := t1.folders[id].path;
    assert t1.folderIds[p] == id;
    if p in visited {
      assert FolderScanned(cfg, present, t1, p) && FolderScanned(cfg, present, t2, p);
    }
  }

  /** The folder rows after a second scan of the same walk are those the
      first scan left. */
  lemma FoldersUnchangedByRescan(cfg: Settings, present: Path -> bool, t0: Tables, t1: Tables, t2: Tables,
                                 w: seq<Visit>)
    requires cfg.libraryRoot in PathsOf(w)
    requires ScannedFrom(cfg, present, t0, t1, w) && ScannedFrom(cfg, present, t1, t2, w)
    requires FolderIndexOk(t1.folderIds, t1.folders) && FolderIndexOk(t2.folderIds, t2.folders)
    ensures t2.folderIds == t1.folderIds
    ensures t2.folders == t1.folders
  {
    assert t2.folderIds == t1.folderIds;
    forall id | id in t2.folders ensures id in t1.folders {
      var p := t2.folders[id].path;
      assert t2.folderIds[p] == id;
    }
    forall id | id in t1.folders ensures id in t2.folders && t2.folders[id] == t1.folders[id] {
      FolderRowUnchanged(cfg, present, t1, t2, PathsOf(w), id);
    }
  }

  /** Likewise the media rows. */
  lemma MediaUnchangedByRescan(cfg: Settings, present: Path -> bool, t0: Tables, t1: Tables, t2: Tables,
                               w: seq<Visit>)
    requires ScannedFrom(cfg, present, t0, t1, w) && ScannedFrom(cfg, present, t1, t2, w)
    requires t2.folderIds == t1.folderIds
    requires MediaIndexOk(t1.mediaIds, t1.media) && MediaIndexOk(t2.mediaIds, t2.media)
    ensures t2.mediaIds == t1.mediaIds
    ensures t2.media == t1.media
  {
    assert t2.mediaIds == t1.mediaIds;
    forall id | id in t2.media ensures id in t1.media {
      var p := t2.media[id].path;
      assert t2.mediaIds[p] == id;
    }
    forall id | id in t1.media ensures id in t2.media && t2.media[id] == t1.media[id] {
      var p := t1.media[id].path;
      assert t1.mediaIds[p] == id;
      if p in VideoPathsOf(w) {
        assert MediaScanned(t1, p) && MediaScanned(t2, p);
      }
    }
  }

  /** An incremental scan of a tree that has not changed since the last
      scan leaves every table as it was: the same folder and media ids, and
      the same rows. */
  lemma RescanChangesNothing(cfg: Settings, present: Path -> bool, t0: Tables, t1: Tables, t2: Tables,
                             w: seq<Visit>)
    requires w != [] && w[0].path == cfg.libraryRoot
    requires ScannedFrom(cfg, present, t0, t1, w) && ScannedFrom(cfg, present, t1, t2, w)
    requires FolderIndexOk(t1.folderIds, t1.folders) && FolderIndexOk(t2.folderIds, t2.folders)
    requires MediaIndexOk(t1.mediaIds, t1.media) && MediaIndexOk(t2.mediaIds, t2.media)
    ensures t2 == t1
  {
    PathsOfMember(w, cfg.libraryRoot);
    FoldersUnchangedByRescan(cfg, present, t0, t1, t2, w);
    MediaUnchangedByRescan(cfg, present, t0, t1, t2, w);
  }

  /** Two incremental scans in a row of the same tree: the same count, and
      the second leaves the tables as the first left them. */
  method ScanTwice(store: Store, cfg: Settings, present: Path -> bool, tree: Dir)
    returns (first: nat, second: nat, ghost between: Tables)
    requires store.Valid()
    modifies store
    ensures store.Valid()
    ensures first == second == VideoCount(Walk(cfg, cfg.libraryRoot, tree))
    ensures store.View() == between
    ensures ScannedFrom(cfg, present, old(store.View()), between, Walk(cfg, cfg.libraryRoot, tree))
  {
    first := ScanLibrary(store, cfg, present, tree, false);
    between := store.View();
    assert FolderIndexOk(between.folderIds, between.folders) && MediaIndexOk(between.mediaIds, between.media);
    second := ScanLibrary(store, cfg, present, tree, false);
    RescanChangesNothing(cfg, present, old(store.View()), between, store.View(), Walk(cfg, cfg.libraryRoot, tree));
  }
}
