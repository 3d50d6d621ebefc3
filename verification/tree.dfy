/** The library tree and the order in which the scan visits it: top-down,
    each directory before its sub-directories, sub-directories in listing
    order, and no descent into a directory whose name is hidden. */
module Tree {
  import opened Common
  import opened Config
  import opened Paths
  import opened Classify
  import opened Lookup

  /** A directory: its name, the names of its files, its sub-directories. */
  datatype Dir = Dir(name: string, files: seq<string>, subdirs: seq<Dir>)

  /** One step of the walk: a directory's path and its file names. */
  datatype Visit = Visit(path: Path, files: seq<string>)

  /** A directory still to be walked, with its path. */
  datatype Node = Node(path: Path, dir: Dir)

  /** The visits of a walk of `d`, found at `p`. */
  function Walk(cfg: Settings, p: Path, d: Dir): (w: seq<Visit>)
    ensures w != [] && w[0] == Visit(p, d.files)
    decreases d
  {
    [Visit(p, d.files)] + WalkAll(cfg, p, d.subdirs)
  }

  /** The visits of the sub-directories `ds` of the directory at `p`, skipping
      hidden ones. */
  function WalkAll(cfg: Settings, p: Path, ds: seq<Dir>): seq<Visit>
    decreases ds
  {
    if ds == [] then []
    else
      (if IsHiddenName(cfg, ds[0].name) then [] else Walk(cfg, p + [ds[0].name], ds[0]))
      + WalkAll(cfg, p, ds[1..])
  }

  /** The sub-directories the walk descends into. */
  function Kept(cfg: Settings, ds: seq<Dir>): (r: seq<Dir>)
    ensures forall i | 0 <= i < |r| :: !IsHiddenName(cfg, r[i].name) && r[i] in ds
  {
    if ds == [] then []
    else if IsHiddenName(cfg, ds[0].name) then Kept(cfg, ds[1..])
    else [ds[0]] + Kept(cfg, ds[1..])
  }

  /** Directories below `p`, as nodes. */
  function Children(p: Path, ds: seq<Dir>): (r: seq<Node>)
    ensures |r| == |ds|
    ensures forall i | 0 <= i < |r| :: r[i] == Node(p + [ds[i].name], ds[i])
  {
    seq(|ds|, i requires 0 <= i < |ds| => Node(p + [ds[i].name], ds[i]))
  }

  /** The walks of a sequence of nodes, one after another. */
  function Flatten(cfg: Settings, nodes: seq<Node>): seq<Visit> {
    if nodes == [] then [] else Walk(cfg, nodes[0].path, nodes[0].dir) + Flatten(cfg, nodes[1..])
  }

  lemma {:induction false} FlattenAppend(cfg: Settings, a: seq<Node>, b: seq<Node>)
    ensures Flatten(cfg, a + b) == Flatten(cfg, a) + Flatten(cfg, b)
  {
    if a != [] {
      assert (a + b)[0] == a[0];
      assert (a + b)[1..] == a[1..] + b;
      FlattenAppend(cfg, a[1..], b);
      calc {
        Flatten(cfg, a + b);
        Walk(cfg, a[0].path, a[0].dir) + Flatten(cfg, a[1..] + b);
        Walk(cfg, a[0].path, a[0].dir) + (Flatten(cfg, a[1..]) + Flatten(cfg, b));
        (Walk(cfg, a[0].path, a[0].dir) + Flatten(cfg, a[1..])) + Flatten(cfg, b);
      }
    } else {
      assert a + b == b;
    }
  }

  /** Walking the sub-directories is walking the kept children one after
      another. */
  lemma {:induction false} WalkAllIsFlatten(cfg: Settings, p: Path, ds: seq<Dir>)
    ensures WalkAll(cfg, p, ds) == Flatten(cfg, Children(p, Kept(cfg, ds)))
  {
    if ds != [] {
      WalkAllIsFlatten(cfg, p, ds[1..]);
      if !IsHiddenName(cfg, ds[0].name) {
        var c := Children(p, Kept(cfg, ds));
        assert c[0] == Node(p + [ds[0].name], ds[0]);
        assert c[1..] == Children(p, Kept(cfg, ds[1..]));
      }
    }
  }

  /** Unfolding the walk of the first node: its own visit, then its kept
      children, then the remaining nodes. */
  lemma FlattenUnfold(cfg: Settings, nodes: seq<Node>)
    requires nodes != []
    ensures Flatten(cfg, nodes)
      == [Visit(nodes[0].path, nodes[0].dir.files)]
         + Flatten(cfg, Children(nodes[0].path, Kept(cfg, nodes[0].dir.subdirs)) + nodes[1..])
  {
    var n := nodes[0];
    WalkAllIsFlatten(cfg, n.path, n.dir.subdirs);
    FlattenAppend(cfg, Children(n.path, Kept(cfg, n.dir.subdirs)), nodes[1..]);
  }

  // ---------------------------------------------------------------------
  // What the walk visits

  /** The directories a walk visits. */
  function PathsOf(w: seq<Visit>): set<Path> {
    if w == [] then {} else PathsOf(w[..|w| - 1]) + {w[|w| - 1].path}
  }

  lemma {:induction false} PathsOfMember(w: seq<Visit>, q: Path)
    ensures q in PathsOf(w) <==> exists i | 0 <= i < |w| :: w[i].path == q
  {
    if w != [] {
      var init := w[..|w| - 1];
      PathsOfMember(init, q);
      if q in PathsOf(init) {
        var i :| 0 <= i < |init| && init[i].path == q;
        assert w[i] == init[i];
      }
      if exists i | 0 <= i < |w| :: w[i].path == q {
        var i :| 0 <= i < |w| && w[i].path == q;
        if i < |w| - 1 {
          assert init[i] == w[i];
        }
      }
    }
  }

  /** The paths of the video files among `files` in the directory at `p`. */
  function VideosIn(p: Path, files: seq<string>): set<Path> {
    if files == [] then {}
    else VideosIn(p, files[..|files| - 1])
         + (if IsVideo(p + [files[|files| - 1]]) then {p + [files[|files| - 1]]} else {})
  }

  /** Each of the videos of a directory is a video file listed in it... */
  lemma {:induction false} VideosInSound(p: Path, files: seq<string>, q: Path)
    requires q in VideosIn(p, files)
    ensures IsVideo(q) && q == p + [Name(q)] && Name(q) in files
  {
    var init, f := files[..|files| - 1], files[|files| - 1];
    assert files == init + [f];
    if q in VideosIn(p, init) {
      VideosInSound(p, init, q);
    } else {
      assert q == p + [f] && IsVideo(p + [f]);
      ParentOfChild(p, f);
    }
  }

  /** ... and every video file listed in it is among them. */
  lemma {:induction false} VideosInComplete(p: Path, files: seq<string>, name: string)
    requires name in files && IsVideo(p + [name])
    ensures p + [name] in VideosIn(p, files)
  {
    var init, f := files[..|files| - 1], files[|files| - 1];
    assert files == init + [f];
    if name != f {
      VideosInComplete(p, init, name);
    }
  }

  /** Every video of a directory lies directly inside it. */
  lemma VideosInParent(p: Path, files: seq<string>, q: Path)
    requires q in VideosIn(p, files)
    ensures Parent(q) == p && q == p + [Name(q)]
  {
    VideosInSound(p, files, q);
    ParentOfChild(p, Name(q));
  }

  /** The paths of the video files of one visit. */
  function VideosOf(v: Visit): set<Path> {
    VideosIn(v.path, v.files)
  }

  function VideoPathsOf(w: seq<Visit>): set<Path> {
    if w == [] then {} else VideoPathsOf(w[..|w| - 1]) + VideosOf(w[|w| - 1])
  }

  /** The number of video files among `files` in the directory at `p`. */
  function CountVideos(p: Path, files: seq<string>): (n: nat)
    ensures n <= |files|
  {
    if files == [] then 0
    else CountVideos(p, files[..|files| - 1]) + (if IsVideo(p + [files[|files| - 1]]) then 1 else 0)
  }

  /** The number of video files over all visits. */
  function VideoCount(w: seq<Visit>): nat {
    if w == [] then 0 else VideoCount(w[..|w| - 1]) + CountVideos(w[|w| - 1].path, w[|w| - 1].files)
  }

  lemma {:induction false} VideoPathsOfMember(w: seq<Visit>, q: Path)
    ensures q in VideoPathsOf(w) <==> exists i | 0 <= i < |w| :: q in VideosOf(w[i])
  {
    if w != [] {
      VideoPathsOfMember(w[..|w| - 1], q);
      if q in VideoPathsOf(w[..|w| - 1]) {
        var i :| 0 <= i < |w| - 1 && q in VideosOf(w[..|w| - 1][i]);
        assert w[..|w| - 1][i] == w[i];
      }
      if exists i | 0 <= i < |w| :: q in VideosOf(w[i]) {
        var i :| 0 <= i < |w| && q in VideosOf(w[i]);
        if i < |w| - 1 {
          assert w[..|w| - 1][i] == w[i];
        }
      }
    }
  }

  // ---------------------------------------------------------------------
  // Shape of the visited paths

  /** `p` lies at or below `root`, and no directory name between them is hidden. */
  predicate UnderRootNotHidden(cfg: Settings, root: Path, p: Path) {
    root <= p && forall k | |root| <= k < |p| :: !IsHiddenName(cfg, p[k])
  }

  predicate AllUnderRootNotHidden(cfg: Settings, root: Path, w: seq<Visit>) {
    forall i | 0 <= i < |w| :: UnderRootNotHidden(cfg, root, w[i].path)
  }

  lemma AllUnderAppend(cfg: Settings, root: Path, a: seq<Visit>, b: seq<Visit>)
    requires AllUnderRootNotHidden(cfg, root, a) && AllUnderRootNotHidden(cfg, root, b)
    ensures AllUnderRootNotHidden(cfg, root, a + b)
  {
    forall i | 0 <= i < |a + b| ensures UnderRootNotHidden(cfg, root, (a + b)[i].path) {
      if i < |a| {
        assert (a + b)[i] == a[i];
      } else {
        assert (a + b)[i] == b[i - |a|];
      }
    }
  }

  /** A child that is not hidden of a directory below the root through no
      hidden name is again such a directory. */
  lemma ChildUnderRootNotHidden(cfg: Settings, root: Path, p: Path, name: string)
    requires UnderRootNotHidden(cfg, root, p) && !IsHiddenName(cfg, name)
    ensures UnderRootNotHidden(cfg, root, p + [name])
  {
    var q := p + [name];
    forall k | |root| <= k < |q| ensures !IsHiddenName(cfg, q[k]) {
      if k < |p| {
        assert q[k] == p[k];
      }
    }
  }

  /** The walk never enters a hidden directory nor anything beneath one: no
      visited path has a hidden name between the root and its end. */
  lemma {:induction false} WalkAvoidsHidden(cfg: Settings, root: Path, p: Path, d: Dir)
    requires UnderRootNotHidden(cfg, root, p)
    ensures AllUnderRootNotHidden(cfg, root, Walk(cfg, p, d))
    decreases d
  {
    WalkAllAvoidsHidden(cfg, root, p, d.subdirs);
    AllUnderAppend(cfg, root, [Visit(p, d.files)], WalkAll(cfg, p, d.subdirs));
  }

  lemma {:induction false} WalkAllAvoidsHidden(cfg: Settings, root: Path, p: Path, ds: seq<Dir>)
    requires UnderRootNotHidden(cfg, root, p)
    ensures AllUnderRootNotHidden(cfg, root, WalkAll(cfg, p, ds))
    decreases ds
  {
    if ds != [] {
      WalkAllAvoidsHidden(cfg, root, p, ds[1..]);
      if !IsHiddenName(cfg, ds[0].name) {
        ChildUnderRootNotHidden(cfg, root, p, ds[0].name);
        WalkAvoidsHidden(cfg, root, p + [ds[0].name], ds[0]);
        AllUnderAppend(cfg, root, Walk(cfg, p + [ds[0].name], ds[0]), WalkAll(cfg, p, ds[1..]));
      } else {
        assert WalkAll(cfg, p, ds) == WalkAll(cfg, p, ds[1..]);
      }
    }
  }
}
