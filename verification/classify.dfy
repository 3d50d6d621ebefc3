/** Classification resolver: hidden directory names, containment of a folder
    in a configured list of root-relative paths, and the three-rule
    precedence that decides whether a folder is kids-safe. */
module Classify {
  import opened Common
  import opened Config
  import opened Paths

  /** A directory name that the scan never descends into (compared
      case-insensitively with the configured names). */
  predicate IsHiddenName(cfg: Settings, name: string) {
    Lower(name) in (set n | n in cfg.hiddenDirNames :: Lower(n))
  }

  /** A listed pattern, as it is compared: slashes stripped, lower-cased. */
  function NormalizePattern(pat: string): string {
    Lower(StripChar(pat, '/'))
  }

  /** The lower-cased root-relative path `rel` is the pattern's path or lies
      beneath it; an empty pattern matches nothing. */
  predicate PatternMatches(rel: string, pat: string) {
    var p := NormalizePattern(pat);
    p != "" && (rel == p || p + "/" <= rel)
  }

  /** The pattern scan, first to last, stopping at the first match. */
  function AnyPatternMatches(rel: string, patterns: seq<string>): (r: bool)
    ensures r <==> exists i | 0 <= i < |patterns| :: PatternMatches(rel, patterns[i])
  {
    if patterns == [] then false
    else if PatternMatches(rel, patterns[0]) then true
    else
      var r := AnyPatternMatches(rel, patterns[1..]);
      assert forall i | 1 <= i < |patterns| :: patterns[i] == patterns[1..][i - 1];
      r
  }

  /** The relative path that is compared: lower-cased, "." for the root. */
  function RelKey(p: Path, root: Path): Option<string> {
    match RelPosix(p, root)
    case Some(rel) => Some(Lower(rel))
    case None => None
  }

  /** `p` is equal to or inside one of the listed relative paths. A path
      outside the root is in no list. */
  function InPathList(p: Path, root: Path, patterns: seq<string>): (r: bool)
    ensures r <==> root <= p && exists i | 0 <= i < |patterns| :: PatternMatches(RelKey(p, root).value, patterns[i])
  {
    match RelKey(p, root)
    case None => false
    case Some(rel) => AnyPatternMatches(rel, patterns)
  }

  /** Whether the folder at `p` is kids-safe: an adult list, if given, decides
      alone; otherwise a kids list, if given; otherwise the default. */
  function IsKidsPath(cfg: Settings, p: Path): bool {
    if |cfg.adultPaths| > 0 then !InPathList(p, cfg.libraryRoot, cfg.adultPaths)
    else if |cfg.kidsPaths| > 0 then InPathList(p, cfg.libraryRoot, cfg.kidsPaths)
    else cfg.defaultIsKids
  }

  /** With an adult list configured, the kids list and the default play no
      part: any other kids list and default give the same answer. */
  lemma AdultListOverrides(cfg: Settings, p: Path, kids: seq<string>, default: bool)
    requires |cfg.adultPaths| > 0
    ensures IsKidsPath(cfg, p) == IsKidsPath(cfg.(kidsPaths := kids, defaultIsKids := default), p)
    ensures IsKidsPath(cfg, p) <==> !(cfg.libraryRoot <= p && exists i | 0 <= i < |cfg.adultPaths| ::
                                       PatternMatches(RelKey(p, cfg.libraryRoot).value, cfg.adultPaths[i]))
  {
  }

  /** Without an adult list, a kids list decides alone. */
  lemma KidsListDecides(cfg: Settings, p: Path, default: bool)
    requires |cfg.adultPaths| == 0 && |cfg.kidsPaths| > 0
    ensures IsKidsPath(cfg, p) == IsKidsPath(cfg.(defaultIsKids := default), p)
    ensures IsKidsPath(cfg, p) <==> (cfg.libraryRoot <= p && exists i | 0 <= i < |cfg.kidsPaths| ::
                                      PatternMatches(RelKey(p, cfg.libraryRoot).value, cfg.kidsPaths[i]))
  {
  }

  /** With neither list, every folder gets the default. */
  lemma DefaultDecides(cfg: Settings, p: Path)
    requires |cfg.adultPaths| == 0 && |cfg.kidsPaths| == 0
    ensures IsKidsPath(cfg, p) == cfg.defaultIsKids
  {
  }

  /** A path outside the root matches no list, so an adult list makes it
      kids-safe and a kids list makes it restricted. */
  lemma OutsideRoot(cfg: Settings, p: Path)
    requires !(cfg.libraryRoot <= p)
    ensures !InPathList(p, cfg.libraryRoot, cfg.adultPaths) && !InPathList(p, cfg.libraryRoot, cfg.kidsPaths)
    ensures IsKidsPath(cfg, p) == (|cfg.adultPaths| > 0 || (|cfg.kidsPaths| == 0 && cfg.defaultIsKids))
  {
  }

  /** Containment is inherited downwards: a sub-folder of a listed folder
      (strictly below the root) is listed too. */
  lemma InPathListInherited(p: Path, root: Path, patterns: seq<string>, c: string)
    requires root <= p && |p| > |root|
    requires InPathList(p, root, patterns)
    ensures InPathList(p + [c], root, patterns)
  {
    var rel := RelKey(p, root).value;
    var i :| 0 <= i < |patterns| && PatternMatches(rel, patterns[i]);
    RelKeySnoc(p, root, c);
    MatchExtends(rel, patterns[i], Lower(c));
  }

  /** The key of a sub-folder extends its parent's key by "/" and its name. */
  lemma RelKeySnoc(p: Path, root: Path, c: string)
    requires root <= p && |p| > |root|
    ensures root <= p + [c]
    ensures RelKey(p + [c], root) == Some(RelKey(p, root).value + "/" + Lower(c))
  {
    assert root <= p + [c];
    assert (p + [c])[|root|..] == p[|root|..] + [c];
    assert Lower("/") == "/";
    JoinSnoc(p[|root|..], c);
    LowerAppend(Join(p[|root|..]) + "/", c);
    LowerAppend(Join(p[|root|..]), "/");
  }

  /** A key that a pattern matches still matches once extended below. */
  lemma MatchExtends(rel: string, pat: string, s: string)
    requires PatternMatches(rel, pat)
    ensures PatternMatches(rel + "/" + s, pat)
  {
    var q := NormalizePattern(pat);
    if rel == q {
      assert q + "/" <= rel + "/" + s;
    } else {
      assert q + "/" <= rel;
      assert rel <= rel + "/" + s;
    }
  }

  /** Hence the classification is inherited as well: below the root, a
      sub-folder of a restricted folder is restricted when an adult list
      decides, and a sub-folder of a kids-safe folder is kids-safe when a kids
      list decides. */
  lemma ClassificationInherited(cfg: Settings, p: Path, c: string)
    requires cfg.libraryRoot <= p && |p| > |cfg.libraryRoot|
    ensures |cfg.adultPaths| > 0 && !IsKidsPath(cfg, p) ==> !IsKidsPath(cfg, p + [c])
    ensures |cfg.adultPaths| == 0 && |cfg.kidsPaths| > 0 && IsKidsPath(cfg, p) ==> IsKidsPath(cfg, p + [c])
  {
    if |cfg.adultPaths| > 0 && !IsKidsPath(cfg, p) {
      InPathListInherited(p, cfg.libraryRoot, cfg.adultPaths, c);
    }
    if |cfg.adultPaths| == 0 && |cfg.kidsPaths| > 0 && IsKidsPath(cfg, p) {
      InPathListInherited(p, cfg.libraryRoot, cfg.kidsPaths, c);
    }
  }

  /** The root itself is compared as ".": a pattern "." lists the root but
      none of its sub-folders, so inheritance stops at the root. */
  lemma RootIsDot(root: Path, c: string)
    requires c != "" && c != "." && '/' !in c
    ensures InPathList(root, root, ["."])
    ensures !InPathList(root + [c], root, ["."])
  {
    DotPattern();
    assert RelKey(root, root) == Some(".");
    assert PatternMatches(".", ["."][0]);
    ChildKey(root, c);
    LowerNotDot(c);
    assert !PatternMatches(Lower(c), ["."][0]);
  }

  lemma DotPattern()
    ensures NormalizePattern(".") == "." && Lower(".") == "."
  {
    assert StripChar(".", '/') == ".";
    assert Lower(".") == ".";
  }

  /** The key of a direct child of the root is its lower-cased name. */
  lemma ChildKey(root: Path, c: string)
    ensures RelKey(root + [c], root) == Some(Lower(c))
  {
    assert (root + [c])[|root|..] == [c];
  }

  lemma LowerNotDot(c: string)
    requires c != "" && c != "." && '/' !in c
    ensures Lower(c) != "." && !("./" <= Lower(c))
  {
    if |c| >= 2 {
      assert Lower(c)[1] == LowerChar(c[1]) && c[1] in c;
    } else {
      assert Lower(c)[0] == LowerChar(c[0]);
    }
  }

  /** An adult list naming `Movies/Horror` restricts that folder and leaves its
      sibling `Movies/Comedy` kids-safe. */
  lemma AdultListExample(cfg: Settings)
    requires cfg.adultPaths == ["Movies/Horror"]
    ensures !IsKidsPath(cfg, cfg.libraryRoot + ["Movies", "Horror"])
    ensures IsKidsPath(cfg, cfg.libraryRoot + ["Movies", "Comedy"])
  {
    var root := cfg.libraryRoot;
    var horror, comedy := root + ["Movies", "Horror"], root + ["Movies", "Comedy"];
    HorrorPattern();
    JoinedNames();
    GrandchildKey(root, "Movies", "Horror");
    assert PatternMatches(RelKey(horror, root).value, cfg.adultPaths[0]);
    assert InPathList(horror, root, cfg.adultPaths);
    GrandchildKey(root, "Movies", "Comedy");
    ComedyIsNotHorror();
    assert !PatternMatches(RelKey(comedy, root).value, cfg.adultPaths[0]);
    assert !InPathList(comedy, root, cfg.adultPaths);
  }

  lemma JoinedNames()
    ensures "Movies" + "/" + "Horror" == "Movies/Horror"
    ensures "Movies" + "/" + "Comedy" == "Movies/Comedy"
  {
  }

  lemma HorrorPattern()
    ensures NormalizePattern("Movies/Horror") == Lower("Movies/Horror")
  {
    assert StripChar("Movies/Horror", '/') == "Movies/Horror";
  }

  /** The key of a grandchild of the root: both names, joined by "/". */
  lemma GrandchildKey(root: Path, a: string, b: string)
    ensures RelKey(root + [a, b], root) == Some(Lower(a + "/" + b))
  {
    assert (root + [a, b])[|root|..] == [a, b];
    assert [a, b][..1] == [a];
    assert Join([a, b]) == a + "/" + b;
  }

  lemma ComedyIsNotHorror()
    ensures !PatternMatches(Lower("Movies/Comedy"), "Movies/Horror")
  {
    HorrorPattern();
    LowerDiffers("Movies/Comedy", "Movies/Horror", 7);
  }

  /** Two names of one length that differ, case aside, at some position. */
  lemma LowerDiffers(a: string, b: string, k: nat)
    requires |a| == |b| && k < |a| && LowerChar(a[k]) != LowerChar(b[k])
    ensures Lower(a) != Lower(b) && !(Lower(b) + "/" <= Lower(a))
  {
    assert Lower(a)[k] != Lower(b)[k];
  }
}
