/** The server's configuration: the fixed extension and file-name lists, and
    the settings read once at start-up, passed explicitly to every component
    that consults them. */
module Config {
  import opened Common

  /** Suffixes (compared lower-cased) of the files catalogued as media. */
  const VideoExts: set<string> := {".mp4", ".m4v", ".mkv", ".mov", ".avi", ".wmv", ".mpg", ".mpeg"}

  /** Subtitle suffixes, in the order they are tried. */
  const SubExts: seq<string> := [".srt", ".vtt"]

  /** Artwork suffixes, in the order they are tried. */
  const ArtExts: seq<string> := [".png", ".jpg", ".jpeg", ".webp"]

  /** Folder poster file names, in the order they are tried. */
  const PosterNames: seq<string> := ["poster.jpg", "poster.png", "folder.jpg", "folder.png"]

  /** The sub-directory of the library root that holds artwork. */
  const ImagesDir: string := "images"

  const DefaultHiddenDirs: seq<string> := ["images"]

  /** The settings record. `secretKey` is the UTF-8 encoding of the
      configured secret; host and port only concern the transport. */
  datatype Settings = Settings(
    libraryRoot: Path,
    secretKey: seq<byte>,
    adminKey: string,
    folderTokenHours: int,
    parentalPin: string,
    defaultIsKids: bool,
    kidsPaths: seq<string>,
    adultPaths: seq<string>,
    hiddenDirNames: seq<string>)

  /** The settings when only the three required fields are configured. */
  function WithDefaults(libraryRoot: Path, secretKey: seq<byte>, adminKey: string): Settings {
    Settings(libraryRoot, secretKey, adminKey, 24, "0000", true, [], [], DefaultHiddenDirs)
  }
}
