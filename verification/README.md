# Local media server — a Dafny model

This project models the core of a small LAN media server and its snapshot-renaming script, and proves properties of that model.

The server mirrors a library directory tree into a catalog of **folders** and **media** rows. Each folder is tagged *kids-safe* or *restricted*. Restricted folders are gated behind short-lived, folder-scoped HMAC tokens, which a client obtains by presenting a parental PIN.

## Modules

| Module | File | What it covers |
|---|---|---|
| `Common` | `common.dfy` | The Python string operations the server relies on: `lower`, `isspace`, `strip`, `split()`, `split(c, 1)`, `in`, `find`. |
| `Paths` | `paths.dfy` | The `pathlib` operations on a path given as its list of components: `name`, `parent`, `suffix`, `stem`, `with_suffix`, `relative_to(...).as_posix()`, `basename`. |
| `Config` | `config.dfy` | The extension lists, poster names and settings record. Settings are passed explicitly instead of being read from a global. |
| `Catalog` | `catalog.dfy` | The two tables as a `Store` class. Each table is a path→id index, an id→row map and a next-rowid counter. SQLite's rowid rule is stated exactly: one more than the largest id, or 1 for an empty table. |
| `Classify` | `classify.dfy` | Hidden directory names. Whether a path is in a configured list of root-relative paths. The three-rule kids/adult precedence. |
| `Lookup` | `lookup.dfy` | The "first existing candidate from a fixed ordered list" rule: video test, subtitles, folder posters, artwork. Whether a file exists is a predicate parameter. |
| `Tree` | `tree.dfy` | The library as a finite tree. The walk `os.walk` performs: top-down, with hidden names pruned before descending. The video files it meets. |
| `Scan` | `scan.dfy` | `scan_library`: an explicit-stack walk over the tree that upserts folder and media rows, reclassifies each folder, sets its poster and counts video files. The loop invariant says which rows the scan has written so far. |
| `Decimal` | `decimal.dfy` | `f"{n}"` and `int(s)` for the token payload. |
| `Base64Url` | `base64url.dfy` | Encoding and decoding in the unpadded base64url form used by tokens. |
| `Token` | `token.dfy` | Issuing and verifying folder tokens. HMAC-SHA256 is a function parameter `mac` and the clock is a parameter `now`. Verification returns a reason, collapsed to a boolean as the server does. |
| `Gateway` | `gateway.dfy` | Which folders need a token, where a request carries its token, and whether it is authorised. |
| `Endpoints` | `endpoints.dfy` | The decisions of the HTTP handlers, as functions of the catalog, the request and the time. The two handlers that write are methods on the `Store`. |
| `FixSaveFormat` | `fixsaveformat.dfy` | The script that renames VLC snapshots `X.mp4NNNNN.png` to `X.png`. It works on a `Directory` whose entries a loop renames in place. |

## Model

| member | source | states |
|---|---|---|
| Catalog.FolderName | server.py:105 | The stored name is the path's last component. The only exception is a library root with an empty last component, which is stored as "/". So a name is empty only for a non-root path whose last component is empty. |
| Catalog.Store.constructor | server.py:69-90 | A new database has empty folder and media tables, and the index invariants and rowid counters hold. |
| Catalog.Store.UpsertFolder | server.py:103-121 | A known path keeps its id and only its name and parent change. Its classification and poster are untouched. A new path gets the next rowid, a fresh id, with the default classification and no poster. The media table is untouched and the index invariants are kept. |
| Catalog.Store.UpsertMedia | server.py:123-137 | A known path keeps its id and its row gets the new name and folder. A new path gets the next rowid. The folder table is untouched and the index invariants are kept. |
| Catalog.Store.SetIsKids | server.py:192 | `UPDATE ... SET is_kids`: only that row's classification changes. A missing id changes nothing. |
| Catalog.Store.SetPoster | server.py:218 | `UPDATE ... SET poster`: only that row's poster changes. A missing id changes nothing. |
| Catalog.Store.Clear | server.py:186-189 | After `DELETE` on both tables, both are empty and the next rowids are 1. |
| Catalog.NextIdIsFresh | server.py:115-119 | The rowid handed out is positive and larger than every id in the table. |
| Catalog.RowIdCounterAdvances | server.py:115-119 | After the handed-out id is inserted, the counter rule holds with the counter advanced by one. |
| Catalog.RowIdCounterUnique | server.py:115-119 | The next rowid is determined by the set of ids alone. |
| Classify.AnyPatternMatches | server.py:148-154 | The pattern loop returns true exactly when some listed pattern matches. |
| Classify.InPathList | server.py:142-154 | A path is in the list exactly when it is at or under the root and some non-empty normalised pattern equals its lower-cased relative path or is a "/"-terminated prefix of it. A path outside the root is in no list. |
| Classify.AdultListOverrides | server.py:165-166 | With an adult list, the result does not depend on the kids list or the default. The folder is kids-safe exactly when it is not in the adult list. |
| Classify.KidsListDecides | server.py:167-168 | Without an adult list but with a kids list, the default plays no part. The folder is kids-safe exactly when it is in the kids list. |
| Classify.DefaultDecides | server.py:169 | With neither list, every folder gets the configured default. |
| Classify.OutsideRoot | server.py:144-147 | A path outside the root matches no list. It is kids-safe under an adult list and restricted under a kids list. |
| Classify.InPathListInherited | server.py:152 | A sub-folder of a listed folder strictly below the root is listed too. |
| Classify.ClassificationInherited | server.py:156-169 | Below the root, restriction under an adult list and kids-safety under a kids list are inherited by sub-folders. |
| Classify.RootIsDot | server.py:145-152 | The root compares as ".": the pattern "." lists the root and none of its children. |
| Classify.AdultListExample | server.py:142-166 | With adult list `["Movies/Horror"]`, `Movies/Horror` is restricted and `Movies/Comedy` is kids-safe. |
| Lookup.FindFirstExisting | server.py:171-177 | The early-return loop over candidates returns the first existing candidate in list order, or nothing. |
| Lookup.FirstExisting | server.py:97-100 | Nothing is returned exactly when no candidate exists. A returned value is an existing candidate, and no candidate before it exists. |
| Lookup.FirstExistingIsFirst | server.py:97-100 | When some candidate exists, one is returned, and no later candidate is chosen over an earlier existing one. |
| Lookup.VideoHasStem | server.py:92-93 | A file accepted as a video has a non-empty stem and a real suffix: a bare ".mp4" is not a video. |
| Lookup.SubtitleCandidatesShareStem | server.py:95-101 | Each corrected subtitle candidate sits beside the media file, keeps its stem and carries the subtitle suffix, in configured order. |
| Lookup.SubtitleCandidatesAsWrittenStripTwice | server.py:95-98 | For every media path, the server's i-th subtitle candidate lies beside the file. Its name is the stem of the file's stem followed by the i-th subtitle suffix, so a second suffix inside the stem is lost. |
| Lookup.SubtitleAsWrittenDropsInnerSuffix | server.py:96-98 | For `Movie.2019.mp4`, the server's candidates are `Movie.srt` and `Movie.vtt`, whereas the stem-preserving first candidate is `Movie.2019.srt`. |
| Lookup.PosterIsFirstConventionalName | server.py:171-177 | A poster is one of the four conventional names inside the folder, and no earlier name exists. No poster means none of the four exists. |
| Lookup.ArtFallsBackToStem | server.py:423-435 | Asking for `show.png` or `show` when only `show.jpg` exists resolves to `show.jpg`. |
| Decimal.ParseIntToString | server.py:243 | Parsing the decimal text of any integer gives the integer back. The text is ASCII and has no dot, so it can be one field of the dotted payload. |
| Base64Url.B64UrlIsUnpadded | server.py:234-235 | `_b64url` is the padded encoding with the padding stripped, which is the plain unpadded encoding. |
| Base64Url.PaddingRestored | server.py:237-238 | `_unb64url` re-appends exactly the padding the encoder produced. |
| Base64Url.RoundTrip | server.py:234-239 | `_unb64url(_b64url(b)) == b` for all bytes. The encoding uses only the URL-safe alphabet, with no "=" and no ".". |
| Base64Url.PaddedRoundTrip | server.py:234-239 | Decoding the padded encoding of any bytes gives them back (by induction over three-byte groups). |
| Base64Url.RejectsOneOverMultipleOfFour | server.py:237-239 | A text made only of base64 data characters (URL-safe alphabet, `+`, `/`) is refused when its length is one more than a multiple of four. |
| Token.IssuedTokenParts | server.py:241-256 | An issued token splits at its first dot into the two encodings. These decode to the payload and its HMAC, and the payload text splits into the folder id and expiry, which parse back. |
| Token.IssuedTokenVerifies | server.py:241-261 | A token issued for a folder verifies for that folder under the same key at every time up to and including issue time + hours·3600. |
| Token.IssuedTokenExpires | server.py:259-260 | After its expiry the issued token is rejected as expired. |
| Token.IssuedTokenBoundToFolder | server.py:257-258 | An issued token is rejected for any other folder, at any time. |
| Token.OtherKeyRejected | server.py:252-254 | A token signed under another key is rejected for a bad signature, provided the two keys sign its payload differently. |
| Token.ReplayedSignatureRejected | server.py:250-254 | A forged payload carrying another payload's signature is rejected for a bad signature. |
| Token.NoDotMalformed | server.py:249 | A text without a dot is rejected as malformed. No exception escapes. |
| Token.AcceptedClaims | server.py:255-261 | Accepted claims name the requested folder, and their expiry has not passed. |
| Token.AcceptedIsSigned | server.py:247-261 | An accepted token's first half decodes to an ASCII payload, its second half to the HMAC of that payload under the key, and the claims hold. |
| Gateway.ExtractBearerToken | server.py:280-297 | A token is returned only when an Authorization header or token parameter is present, and a non-empty token never begins or ends with whitespace. |
| Gateway.HeaderPreferred | server.py:286-292 | A header of the form `<ws>Bearer<ws>token`, with any case of the scheme word, yields exactly the token, whatever the query holds. |
| Gateway.QueryFallback | server.py:293-297 | Without a header, or with a header not of the two-word bearer form, the stripped non-empty `token` parameter is used, otherwise nothing. |
| Gateway.NoTokenNeverAuthorized | server.py:299-302 | A request with neither a header nor a token parameter is never authorised. |
| Gateway.BlankQueryTokenRefused | server.py:294-302 | A whitespace-only query token strips to the empty token, and the request is refused. |
| Gateway.IssuedTokenIsOneWord | server.py:245 | An issued token is non-empty and contains no whitespace. |
| Gateway.OneWordTokenCarried | server.py:280-297 | A one-word token sent as `Bearer <token>` or as `?token=<token>` reaches the verifier unchanged. |
| Gateway.IssuedTokenAuthorizes | server.py:299-303 | An issued token authorises requests for its folder, in either form, until it expires. |
| Gateway.IssuedTokenOnlyForItsFolder | server.py:299-303 | A request carrying a token issued for one folder is not authorised for any other. |
| Tree.Walk | server.py:196 | The walk of a directory starts by visiting that directory with its own files. |
| Tree.Kept | server.py:198 | The walk descends only into sub-directories that are not hidden and belong to the listing. |
| Tree.FlattenUnfold | server.py:196-198 | The stack discipline matches the walk: popping a directory and pushing its kept children in order yields the same visits. |
| Tree.VideosInSound | server.py:221-223 | Every video path of a directory is a listed file of that directory whose suffix is a video suffix. |
| Tree.VideosInComplete | server.py:221-223 | Every listed file with a video suffix is among the directory's videos. |
| Tree.WalkAvoidsHidden | server.py:196-198 | No directory the walk visits has a hidden name anywhere between the root and its end. |
| Scan.UpsertFile | server.py:221-225 | One iteration of the file loop upserts the file exactly when it is a video, adds that to the count, and leaves the folder table untouched. |
| Scan.UpsertVideos | server.py:221-225 | Looping over a directory's files upserts exactly its video files, pointing at the folder. It returns their number and leaves the folder table and other media rows as they were. |
| Scan.FolderRow | server.py:202-212 | A directory already in `path_to_id` keeps its id and row. Any other directory is upserted under its parent's id, which the walk has always recorded; the parent-upsert fallback is unreachable. |
| Scan.UpdateFolderRow | server.py:202-218 | One directory's folder writes: its row is found or created, then reclassified and given its poster. No other row is written. |
| Scan.VisitDir | server.py:200-225 | One visit extends the folder state by the directory and the media state by its videos, and returns its video count. |
| Scan.RootRowInit | server.py:191-194 | Before the walk, the root has its row with no parent and its classification. Every other row is as it was. |
| Scan.ParentsKnown | server.py:203-212 | After a step, every directory on the stack is the root or has its parent in `path_to_id`. |
| Scan.ScanStep | server.py:196-225 | One loop iteration keeps the scan invariant and strictly advances through the walk. |
| Scan.ScanLibrary | server.py:179-228 | The count is the number of video files in the visited directories. Afterwards every visited directory has its row: name, parent, classification, first-existing poster. Every video file has its media row. Known paths keep their ids, and unvisited rows are untouched. A full rescan starts from empty tables. |
| Scan.ScanSkipsHidden | server.py:196-198 | A scan adds no folder row at or beneath a hidden name, and no media row in such a directory. |
| Scan.RescanChangesNothing | server.py:191-225 | A second incremental scan of an unchanged tree leaves both tables exactly as the first left them: same ids, same rows. |
| Scan.ScanTwice | server.py:179-228 | Two incremental scans in a row of the same tree return the same count, and the second leaves the catalog as the first left it. |
| Endpoints.SubfolderEntries | server.py:362-363 | The listed sub-folders are exactly the rows whose parent is the folder, with their names. |
| Endpoints.MediaEntries | server.py:366-367 | The listed media are exactly the rows in the folder, with their names. |
| Endpoints.ApiBrowse | server.py:340-374 | A listing describes the requested folder, or the root's folder, with exactly its sub-folders and media. A folder that needs a token is listed only for a request authorised for it. "Not authorised" is answered exactly when the target folder needs a token and the request lacks a valid one. "Not found" is answered exactly when there is no target or it has no row. Every other request gets the listing. |
| Endpoints.MediaGate | server.py:380-386 | The shared gate passes only for an existing media row. Otherwise it answers "not found" or 401. |
| Endpoints.ApiStream | server.py:377-391 | The file is served exactly when the row exists, the request may read its folder and the file is on disk. 401 is answered exactly when the row exists and the folder is closed to the request. |
| Endpoints.ApiSubtitle | server.py:394-409 | The subtitle is served exactly when the media row exists, the request may read its folder and a candidate sharing the stem exists. The one served is the first existing candidate. 401 is answered under the same gate as the stream. |
| Endpoints.ApiSubtitleAsWritten | server.py:394-409 | The server's own subtitle lookup serves only existing files, and only to a request that may read the media's folder. |
| Endpoints.ApiArt | server.py:416-436 | 400 is answered exactly when the stripped basename is empty. Otherwise 404 is answered exactly when no candidate is a file: neither the exact name nor its stem with any artwork suffix. A served file is the first candidate that is a file. It lies directly inside the images directory, so no request escapes it. |
| Endpoints.ApiAuthFolder | server.py:443-448 | 401 is answered exactly for a wrong PIN. An issued token verifies for the folder at every time up to the configured number of hours later, and at no time after. |
| Endpoints.ApiAdminRescan | server.py:455-459 | Without the admin key the answer is 401 and the catalog is unchanged. With it, the answer carries the scan's count and the catalog is as the scan leaves it. |
| Endpoints.EnsureRootRow | server.py:465-472 | A catalog without a root row gets one, classified and without a parent. A catalog with one is left unchanged. |
| Endpoints.KidsFolderOpenToAll | server.py:352-355 | A kids-safe folder is listed for any request. |
| Endpoints.RestrictedFolderNeedsToken | server.py:352-355 | A restricted folder is answered "not authorised" to a request without a token. |
| Endpoints.UnknownFolderNotFound | server.py:357-359 | An unknown folder id is "not found", whatever the request carries. |
| Endpoints.PinTokenOpensFolder | server.py:442-448 | The token bought with the PIN, sent back as a bearer header, lists its folder. Until it expires, it streams that folder's media files that are on disk. |
| Endpoints.ScannedFolderGate | server.py:265-274 | After a scan, a folder needs a token exactly when the rules do not classify its path as kids-safe. |
| Endpoints.ScannedChildrenListed | server.py:361-367 | After a scan, browsing a folder lists each scanned sub-directory and each scanned video file in it. |
| Endpoints.SubtitleAsWrittenMissesDottedStem | server.py:95-101 | With only `Movie.2019.srt` beside `Movie.2019.mp4`, the server's lookup answers "not found" and the stem-preserving lookup serves that file. |
| Endpoints.SubtitleBesideMediaFound | server.py:95-101 | For every media file the request may read, an existing `<stem>.srt` beside it means the stem-preserving lookup serves a subtitle. |
| FixSaveFormat.NewName | scripts/FixSaveFormat.py:20 | The new name is a prefix of the old name followed by ".png". When the old name contains ".mp4", that prefix ends exactly where the first ".mp4" starts. The new name contains no ".mp4", so it is never selected again. |
| FixSaveFormat.MovePaths | scripts/FixSaveFormat.py:23-24 | Source and destination are in the same folder; only the final component differs. |
| FixSaveFormat.Directory.Rename | scripts/FixSaveFormat.py:27 | The source entry is gone and the destination holds its contents, replacing any entry of that name. |
| FixSaveFormat.FixSnapshots | scripts/FixSaveFormat.py:17-27 | The loop leaves the directory as renaming each listed selected name in listing order does. Every selected name is still present when its turn comes. |
| FixSaveFormat.SnapshotRenamed | scripts/FixSaveFormat.py:18-20 | A snapshot name `<stem>.mp4<counter>.png`, whose stem does not contain ".mp4", is selected and becomes `<stem>.png`. |
| FixSaveFormat.SnapshotExample | scripts/FixSaveFormat.py:8-9 | "Video.mp400123.png" is selected and becomes "Video.png". |
| FixSaveFormat.NewNameNotSelected | scripts/FixSaveFormat.py:18-20 | No new name is itself selected. |
| FixSaveFormat.RenamedKeys | scripts/FixSaveFormat.py:17-27 | After the loop, a name is present exactly when it was present and not a listed selected name, or it is the new name of a listed selected name. |
| FixSaveFormat.NothingSelectedNothingRenamed | scripts/FixSaveFormat.py:17-18 | A directory without selected names is left unchanged. |
| FixSaveFormat.SecondRunRenamesNothing | scripts/FixSaveFormat.py:17-20 | When the listing is the whole directory, no selected name remains, and a second run changes nothing. |
| FixSaveFormat.UnselectedKept | scripts/FixSaveFormat.py:17-18 | An unselected name keeps its contents unless some snapshot's new name lands on it. |
| FixSaveFormat.LaterSnapshotWins | scripts/FixSaveFormat.py:20-27 | Two snapshots of one video both become `<stem>.png`, and only the one listed later survives. |

## Left out

- HTTP transport is not modelled: routing, CORS, `FileResponse` streaming, MIME type guessing, status-message texts and JSON shapes. A handler's answer is a `Response` value.
- SQLite, connections, `DB_LOCK` and threading are not modelled. The catalog is an in-memory `Store`, and concurrent requests and scans are out of scope.
- HMAC-SHA256 and `compare_digest` are the function parameter `mac` plus equality. Neither SHA-256 nor constant-time comparison is modelled.
- Wall-clock time is the parameter `now`. The token's expiry is `now + hours * 3600` at issue.
- The filesystem is a given finite `Tree.Dir` plus existence predicates. `Path.resolve()`, symlinks, `os.walk` error handling, and the missing-root `SystemExit` are not modelled.
- Config loading (YAML, pydantic, the missing-config `SystemExit`), `init_db`'s DDL beyond empty tables, `main` and uvicorn are not modelled.
- `scripts/ResizeImages.py` is not part of this model: it is floating-point image scaling done through PIL.
- `scripts/SyncFolders.py` is not part of this model: it is only filesystem copying.
- Endpoints.ApiBrowse: sub-folders and media are given as sets, not in the `ORDER BY name COLLATE NOCASE` order of the query.
- Base64Url.PaddedDecode: the decoder is strict: URL-safe alphabet only, with correct padding. Python's `urlsafe_b64decode` is lenient: it also reads `+` and `/`, skips characters outside the alphabet, and tolerates some misplaced `=`. The model claims only behaviour on what the encoder produces, and on data-character text one over a multiple of four.
- Token.CheckFolderToken: a stray non-alphabet character is skipped by Python and rejected by the model. So a valid token with such a character added is accepted by the server but rejected as malformed by the model.
- Decimal.ParseInt: accepts only an optional sign and ASCII digits. `int()` also accepts surrounding whitespace, underscores and non-ASCII digits, which no issued token contains.
- Common.Lower: lower-cases ASCII letters only. Python's `str.lower` is Unicode-wide.
- Endpoints.ApiArt: the exact candidates for the names "." and ".." are treated as ordinary entries of the images directory. `pathlib` folds `images/.` into the images directory itself, and `images/..` is the library root. Both are directories, which `is_file()` refuses. The model leaves this to the `isFile` parameter. The stem candidates follow pathlib: "." has the empty stem, so `images/.png` and so on are tried.
- Endpoints.ApiSubtitleAsWritten: states only that it serves existing files through the access gate. The candidates it tries are stated for every path by Lookup.SubtitleCandidatesAsWrittenStripTwice.
- Endpoints.EnsureRootRow: the id of the new root row is a ghost result, because the server does not return it.
- FixSaveFormat.Directory.Rename: a rename onto an existing name replaces it, as POSIX `rename` does. On Windows `os.rename` raises instead.
- FixSaveFormat.FixSnapshots: requires the listing to be duplicate-free names of the directory, which is what `os.listdir` returns. The `print` of each rename is not modelled.
- Scan.ScanLibrary: the walk order follows the order of each directory's listing in the tree value. That order is whatever `os.walk` returns.

## Findings

| source | as written | input that shows it | evidently intended | confidence | as-written member | corrected member |
|---|---|---|---|---|---|---|
| server.py:95-101 | `find_subtitle` takes `p.with_suffix("")` and then `.with_suffix(ext)`, which removes a second suffix from a stem that contains a dot | media file `lib/Movie.2019.mp4` with only `lib/Movie.2019.srt` beside it: the server looks for `lib/Movie.srt` and `lib/Movie.vtt` and answers "not found" | look for `<stem of the media file><ext>` beside the media file, that is `p.with_suffix(ext)` | not executed | Endpoints.SubtitleAsWrittenMissesDottedStem | Endpoints.SubtitleBesideMediaFound |

The rest of the model uses the corrected lookup `Lookup.FindSubtitle`. Its candidates keep the media file's whole stem (Lookup.SubtitleCandidatesShareStem). The server's own candidate list is `Lookup.SubtitleCandidatesAsWritten`, used by `Endpoints.ApiSubtitleAsWritten`.
