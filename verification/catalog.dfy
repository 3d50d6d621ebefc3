/** The catalog: the `folders` and `media` tables, kept in memory. Each table
    is an index from path to row id (the UNIQUE path column) and a map from
    row id to row. New rows get SQLite's rowid: one more than the largest id
    in the table, or 1 when the table is empty. */
module Catalog {
  import opened Common
  import opened Config
  import opened Paths

  /** A row of `folders`. */
  datatype Folder = Folder(path: Path, name: string, parentId: Option<int>, isKids: bool, poster: Option<Path>)

  /** A row of `media`. */
  datatype MediaItem = MediaItem(path: Path, name: string, folderId: int)

  /** A snapshot of both tables, as the request handlers read them. */
  datatype Tables = Tables(
    folderIds: map<Path, int>,
    folders: map<int, Folder>,
    mediaIds: map<Path, int>,
    media: map<int, MediaItem>)

  /** The name stored for a folder: its last component, or "/" for a
      library root that has none. */
  function FolderName(p: Path, root: Path): (name: string)
    ensures name != "" || (p != root && Name(p) == "")
    ensures name != Name(p) ==> p == root && Name(p) == "" && name == "/"
  {
    if p != root then Name(p) else if Name(p) == "" then "/" else Name(p)
  }

  /** `next` is the rowid SQLite hands out next for a table whose ids are
      `ids`: every id lies in [1, next), and next - 1 is the largest one. */
  predicate RowIdCounter(ids: set<int>, next: int) {
    && (forall id | id in ids :: 1 <= id < next)
    && (ids == {} ==> next == 1)
    && (ids != {} ==> next - 1 in ids)
  }

  /** The path index and the rows agree: one row per path, each row's path
      indexes back to it. */
  predicate FolderIndexOk(ids: map<Path, int>, rows: map<int, Folder>) {
    && (forall p | p in ids :: ids[p] in rows && rows[ids[p]].path == p)
    && (forall id | id in rows :: rows[id].path in ids && ids[rows[id].path] == id)
  }

  predicate MediaIndexOk(ids: map<Path, int>, rows: map<int, MediaItem>) {
    && (forall p | p in ids :: ids[p] in rows && rows[ids[p]].path == p)
    && (forall id | id in rows :: rows[id].path in ids && ids[rows[id].path] == id)
  }

  class Store {
    var folderIds: map<Path, int>
    var folders: map<int, Folder>
    var nextFolderId: int
    var mediaIds: map<Path, int>
    var media: map<int, MediaItem>
    var nextMediaId: int

    ghost predicate Valid()
      reads this
    {
      && FolderIndexOk(folderIds, folders) && RowIdCounter(folders.Keys, nextFolderId)
      && MediaIndexOk(mediaIds, media) && RowIdCounter(media.Keys, nextMediaId)
    }

    function View(): Tables
      reads this
    {
      Tables(folderIds, folders, mediaIds, media)
    }

    /** `init_db` on a new database: both tables empty. */
    constructor()
      ensures Valid()
      ensures View() == Tables(map[], map[], map[], map[])
    {
      folderIds, folders, nextFolderId := map[], map[], 1;
      mediaIds, media, nextMediaId := map[], map[], 1;
    }

    /** `upsert_folder(conn, p, parent_id)`: a known path keeps its id and
        only its name and parent change; a new path gets the next rowid and
        a row with the default classification and no poster. */
    method UpsertFolder(cfg: Settings, p: Path, parentId: Option<int>) returns (id: int)
      requires Valid()
      modifies this
      ensures Valid()
      ensures p in old(folderIds) ==>
        && id == old(folderIds)[p]
        && folderIds == old(folderIds)
        && folders == old(folders)[id := old(folders)[id].(name := FolderName(p, cfg.libraryRoot), parentId := parentId)]
        && nextFolderId == old(nextFolderId)
      ensures p !in old(folderIds) ==>
        && id == old(nextFolderId) && id !in old(folders)
        && folderIds == old(folderIds)[p := id]
        && folders == old(folders)[id := Folder(p, FolderName(p, cfg.libraryRoot), parentId, cfg.defaultIsKids, None)]
        && nextFolderId == id + 1
      ensures mediaIds == old(mediaIds) && media == old(media) && nextMediaId == old(nextMediaId)
    {
      var name := FolderName(p, cfg.libraryRoot);
      if p in folderIds {
        id := folderIds[p];
        folders := folders[id := folders[id].(name := name, parentId := parentId)];
      } else {
        id := nextFolderId;
        folderIds := folderIds[p := id];
        folders := folders[id := Folder(p, name, parentId, cfg.defaultIsKids, None)];
        nextFolderId := id + 1;
      }
    }

    /** `upsert_media(conn, p, folder_id)`: a known path keeps its id and
        only its name and folder change; a new path gets the next rowid. */
    method UpsertMedia(p: Path, folderId: int) returns (id: int)
      requires Valid()
      modifies this
      ensures Valid()
      ensures p in old(mediaIds) ==>
        && id == old(mediaIds)[p]
        && mediaIds == old(mediaIds)
        && media == old(media)[id := MediaItem(p, Name(p), folderId)]
        && nextMediaId == old(nextMediaId)
      ensures p !in old(mediaIds) ==>
        && id == old(nextMediaId) && id !in old(media)
        && mediaIds == old(mediaIds)[p := id]
        && media == old(media)[id := MediaItem(p, Name(p), folderId)]
        && nextMediaId == id + 1
      ensures folderIds == old(folderIds) && folders == old(folders) && nextFolderId == old(nextFolderId)
    {
      if p in mediaIds {
        id := mediaIds[p];
      } else {
        id := nextMediaId;
        mediaIds := mediaIds[p := id];
        nextMediaId := id + 1;
      }
      media := media[id := MediaItem(p, Name(p), folderId)];
    }

    /** `UPDATE folders SET is_kids=? WHERE id=?`: no effect on a missing id. */
    method SetIsKids(id: int, isKids: bool)
      requires Valid()
      modifies this
      ensures Valid()
      ensures folders == if id in old(folders) then old(folders)[id := old(folders)[id].(isKids := isKids)] else old(folders)
      ensures folderIds == old(folderIds) && nextFolderId == old(nextFolderId)
      ensures mediaIds == old(mediaIds) && media == old(media) && nextMediaId == old(nextMediaId)
    {
      if id in folders {
        folders := folders[id := folders[id].(isKids := isKids)];
      }
    }

    /** `UPDATE folders SET poster=? WHERE id=?`: no effect on a missing id. */
    method SetPoster(id: int, poster: Option<Path>)
      requires Valid()
      modifies this
      ensures Valid()
      ensures folders == if id in old(folders) then old(folders)[id := old(folders)[id].(poster := poster)] else old(folders)
      ensures folderIds == old(folderIds) && nextFolderId == old(nextFolderId)
      ensures mediaIds == old(mediaIds) && media == old(media) && nextMediaId == old(nextMediaId)
    {
      if id in folders {
        folders := folders[id := folders[id].(poster := poster)];
      }
    }

    /** `DELETE FROM media; DELETE FROM folders`: both tables empty, so the
        next rowids are 1 again. */
    method Clear()
      modifies this
      ensures Valid()
      ensures View() == Tables(map[], map[], map[], map[])
      ensures nextFolderId == 1 && nextMediaId == 1
    {
      folderIds, folders, nextFolderId := map[], map[], 1;
      mediaIds, media, nextMediaId := map[], map[], 1;
    }
  }

  // ---------------------------------------------------------------------
  // Properties of the row-id rule

  /** The rowid handed out is fresh: larger than every id in the table. */
  lemma NextIdIsFresh(ids: set<int>, next: int)
    requires RowIdCounter(ids, next)
    ensures next !in ids && next >= 1
    ensures forall id | id in ids :: id < next
  {
  }

  /** Adding the handed-out id keeps the rule, with the counter advanced. */
  lemma RowIdCounterAdvances(ids: set<int>, next: int)
    requires RowIdCounter(ids, next)
    ensures RowIdCounter(ids + {next}, next + 1)
  {
  }

  /** The counter is determined by the ids: it is one more than the largest
      id, or 1. */
  lemma RowIdCounterUnique(ids: set<int>, n1: int, n2: int)
    requires RowIdCounter(ids, n1) && RowIdCounter(ids, n2)
    ensures n1 == n2
  {
    if ids != {} {
      assert n1 - 1 in ids && n2 - 1 in ids;
    }
  }
}
