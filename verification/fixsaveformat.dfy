/** The snapshot renamer: in one directory, every PNG whose name contains
    ".mp4" (a VLC snapshot such as "Video.mp400123.png") is renamed to the
    text before the first ".mp4" followed by ".png" ("Video.png"). The
    directory is a map from entry name to contents; a rename onto an
    existing name replaces that entry, as a POSIX rename does. */
module FixSaveFormat {
  import opened Common
  import opened Paths

  /** The names the script renames. */
  predicate Selected(name: string) {
    EndsWith(name, ".png") && Contains(name, ".mp4")
  }

  /** The new name of a selected file: what precedes the first ".mp4", then
      ".png". It is a PNG name without ".mp4", so it is never selected. */
  function NewName(name: string): (r: string)
    ensures |r| >= 4 && |r| - 4 <= |name| && r == name[..|r| - 4] + ".png"
    ensures Contains(name, ".mp4") ==> OccursAt(name, ".mp4", |r| - 4)
    ensures EndsWith(r, ".png") && !Contains(r, ".mp4")
    ensures !Selected(r)
  {
    var before := Before(name, ".mp4");
    var r := before + ".png";
    assert r[|r| - 4..] == ".png";
    PngAfterKeepsOut(before);
    r
  }

  /** Appending ".png" cannot create an occurrence of ".mp4": one across the
      seam would have to start with the dot of ".png". */
  lemma PngAfterKeepsOut(before: string)
    requires !Contains(before, ".mp4")
    ensures !Contains(before + ".png", ".mp4")
  {
    var r := before + ".png";
    forall i | 0 <= i <= |r| ensures !OccursAt(r, ".mp4", i) {
      if i + 4 <= |before| {
        assert !OccursAt(before, ".mp4", i);
        assert r[i..i + 4] == before[i..i + 4];
      } else if i < |before| {
        if i + 4 <= |r| {
          assert r[i..i + 4][|before| - i] == r[|before|] == '.';
        }
      } else if i + 4 <= |r| {
        assert r[i..i + 4] == ".png"[i - |before|..];
      }
    }
  }

  /** One entry of the listing, as the loop body treats it. */
  function RenameOne(entries: map<string, seq<byte>>, name: string): map<string, seq<byte>> {
    if Selected(name) && name in entries then (entries - {name})[NewName(name) := entries[name]]
    else entries
  }

  /** The directory after the loop has treated `names`, in order. */
  function Renamed(entries: map<string, seq<byte>>, names: seq<string>): map<string, seq<byte>> {
    if names == [] then entries
    else RenameOne(Renamed(entries, names[..|names| - 1]), names[|names| - 1])
  }

  /** `os.path.join(folder, filename)` and `os.path.join(folder, new_name)`:
      both in the same folder, and only the final component differs. */
  function MovePaths(folder: Path, name: string): (r: (Path, Path))
    requires Selected(name)
    ensures Parent(r.0) == folder && Parent(r.1) == folder
    ensures Name(r.0) == name && Name(r.1) == NewName(name)
  {
    (folder + [name], folder + [NewName(name)])
  }

  /** A directory and its entries, which the script changes in place. */
  class Directory {
    var entries: map<string, seq<byte>>

    constructor(entries: map<string, seq<byte>>)
      ensures this.entries == entries
    {
      this.entries := entries;
    }

    /** `os.rename(old, new)` within this directory. */
    method Rename(src: string, dst: string)
      requires src in entries
      modifies this
      ensures entries == (old(entries) - {src})[dst := old(entries)[src]]
    {
      var contents := entries[src];
      entries := (entries - {src})[dst := contents];
    }
  }

  /** No two listed names are the same. */
  predicate Distinct(names: seq<string>) {
    forall i, j | 0 <= i < j < |names| :: names[i] != names[j]
  }

  /** The script's loop over `os.listdir(folder_path)`: each selected name is
      renamed in turn. A selected name is still present when its turn comes,
      so no rename fails. */
  method FixSnapshots(dir: Directory, listing: seq<string>)
    requires Distinct(listing)
    requires forall i | 0 <= i < |listing| :: listing[i] in dir.entries
    modifies dir
    ensures dir.entries == Renamed(old(dir.entries), listing)
  {
    ghost var entries0 := dir.entries;
    for i := 0 to |listing|
      invariant dir.entries == Renamed(entries0, listing[..i])
      invariant forall j | i <= j < |listing| && Selected(listing[j]) ::
        listing[j] in dir.entries && dir.entries[listing[j]] == entries0[listing[j]]
    {
      var name := listing[i];
      assert listing[..i + 1][..i] == listing[..i];
      if EndsWith(name, ".png") && Contains(name, ".mp4") {
        var newName := NewName(name);
        dir.Rename(name, newName);
      }
    }
    assert listing[..|listing|] == listing;
  }

  // ---------------------------------------------------------------------
  // Properties

  /** A snapshot name: the video's stem (which cannot itself contain
      ".mp4"), ".mp4", the snapshot counter, ".png". It is selected, and its
      new name is the stem with ".png". */
  lemma SnapshotRenamed(stem: string, counter: string)
    requires !Contains(stem, ".mp4")
    ensures Selected(stem + ".mp4" + counter + ".png")
    ensures NewName(stem + ".mp4" + counter + ".png") == stem + ".png"
  {
    var s := stem + ".mp4" + counter + ".png";
    var k := |stem|;
    assert s[k..k + 4] == ".mp4";
    assert OccursAt(s, ".mp4", k);
    assert s[|s| - 4..] == ".png";
    forall j | 0 <= j < k ensures !OccursAt(s, ".mp4", j) {
      if j + 4 <= k {
        assert s[j..j + 4] == stem[j..j + 4];
        assert !OccursAt(stem, ".mp4", j);
      } else if j + 4 <= |s| {
        assert s[j..j + 4][k - j] == s[k] == '.';
      }
    }
    assert IndexOf(s, ".mp4") == Some(k);
    assert s[..k] == stem;
  }

  /** The example of the script's own description. */
  lemma SnapshotExample()
    ensures Selected("Video.mp400123.png")
    ensures NewName("Video.mp400123.png") == "Video.png"
  {
    SnapshotLiterals();
    NoDotNoMp4("Video");
    SnapshotRenamed("Video", "00123");
  }

  lemma NoDotNoMp4(s: string)
    requires '.' !in s
    ensures !Contains(s, ".mp4")
  {
    forall i | 0 <= i <= |s| ensures !OccursAt(s, ".mp4", i) {
      if i + 4 <= |s| {
        assert s[i..i + 4][0] == s[i];
      }
    }
  }

  lemma SnapshotLiterals()
    ensures '.' !in "Video"
    ensures "Video" + ".mp4" + "00123" + ".png" == "Video.mp400123.png"
    ensures "Video" + ".png" == "Video.png"
  {
  }

  /** `k` is the new name of some selected name among `names`. */
  predicate IsNewNameIn(names: seq<string>, k: string) {
    names != [] && (IsNewNameIn(names[..|names| - 1], k) || RenamesTo(names[|names| - 1], k))
  }

  /** `name` is selected and renamed to `k`. */
  predicate RenamesTo(name: string, k: string) {
    Selected(name) && k == NewName(name)
  }

  /** A new name is never itself selected. */
  lemma {:induction false} NewNameNotSelected(names: seq<string>, k: string)
    requires IsNewNameIn(names, k)
    ensures !Selected(k)
  {
    if !RenamesTo(names[|names| - 1], k) {
      NewNameNotSelected(names[..|names| - 1], k);
    }
  }

  /** The names after the loop: every listed selected name is replaced by
      its new name, every other name stays. */
  lemma {:induction false} RenamedKeys(entries: map<string, seq<byte>>, names: seq<string>, k: string)
    requires Distinct(names) && forall i | 0 <= i < |names| :: names[i] in entries
    ensures k in Renamed(entries, names) <==>
      (k in entries && !(Selected(k) && k in names)) || IsNewNameIn(names, k)
  {
    if names != [] {
      var init, last := names[..|names| - 1], names[|names| - 1];
      assert Distinct(init) && forall i | 0 <= i < |init| :: init[i] in entries;
      RenamedKeys(entries, init, k);
      if Selected(last) {
        StillThere(entries, init, last);
      }
      assert k in names <==> k in init || k == last;
      if IsNewNameIn(init, k) {
        NewNameNotSelected(init, k);
      }
    }
  }

  /** A listed selected name not yet reached is still in the directory,
      with its first contents. */
  lemma {:induction false} StillThere(entries: map<string, seq<byte>>, names: seq<string>, n: string)
    requires Distinct(names) && n !in names && n in entries && Selected(n)
    ensures n in Renamed(entries, names) && Renamed(entries, names)[n] == entries[n]
  {
    if names != [] {
      var init := names[..|names| - 1];
      assert Distinct(init) && n !in init;
      StillThere(entries, init, n);
    }
  }

  /** A directory without selected names is left alone. */
  lemma {:induction false} NothingSelectedNothingRenamed(entries: map<string, seq<byte>>, names: seq<string>)
    requires forall k | k in entries :: !Selected(k)
    ensures Renamed(entries, names) == entries
  {
    if names != [] {
      NothingSelectedNothingRenamed(entries, names[..|names| - 1]);
    }
  }

  /** When the listing is the whole directory, no selected name is left
      afterwards, so running the script a second time renames nothing. */
  lemma SecondRunRenamesNothing(entries: map<string, seq<byte>>, listing: seq<string>, listing2: seq<string>)
    requires Distinct(listing) && forall k :: k in entries <==> k in listing
    ensures forall k | k in Renamed(entries, listing) :: !Selected(k)
    ensures Renamed(Renamed(entries, listing), listing2) == Renamed(entries, listing)
  {
    var r := Renamed(entries, listing);
    forall k | k in r ensures !Selected(k) {
      RenamedKeys(entries, listing, k);
      if IsNewNameIn(listing, k) {
        NewNameNotSelected(listing, k);
      }
    }
    NothingSelectedNothingRenamed(r, listing2);
  }

  /** A name the script does not select keeps its contents unless a
      snapshot's new name lands on it. */
  lemma {:induction false} UnselectedKept(entries: map<string, seq<byte>>, names: seq<string>, k: string)
    requires k in entries && !Selected(k)
    requires forall i | 0 <= i < |names| :: Selected(names[i]) ==> NewName(names[i]) != k
    ensures k in Renamed(entries, names) && Renamed(entries, names)[k] == entries[k]
  {
    if names != [] {
      UnselectedKept(entries, names[..|names| - 1], k);
    }
  }

  /** Two selected names with the same new name: only the one listed later
      survives, under the new name. */
  lemma SameNewNameLaterWins(n1: string, n2: string, a: seq<byte>, b: seq<byte>)
    requires n1 != n2 && Selected(n1) && Selected(n2) && NewName(n1) == NewName(n2)
    ensures Renamed(map[n1 := a, n2 := b], [n1, n2]) == map[NewName(n1) := b]
  {
    var entries := map[n1 := a, n2 := b];
    var names := [n1, n2];
    assert names[..1] == [n1] && names[..1][..0] == [];
    var v := NewName(n1);
    assert v != n1 && v != n2;
    var r1 := RenameOne(entries, n1);
    assert r1 == map[n2 := b, v := a];
    assert Renamed(entries, [n1]) == RenameOne(Renamed(entries, []), n1) == r1;
    assert names[..|names| - 1] == [n1];
    assert Renamed(entries, names) == RenameOne(r1, n2);
  }

  /** Two snapshots of the same video, with different counters: both are
      renamed to the same name, so only the one listed later survives. */
  lemma LaterSnapshotWins(stem: string, c1: string, c2: string, a: seq<byte>, b: seq<byte>)
    requires !Contains(stem, ".mp4") && |c1| == |c2| && c1 != c2
    ensures var n1, n2 := stem + ".mp4" + c1 + ".png", stem + ".mp4" + c2 + ".png";
      Renamed(map[n1 := a, n2 := b], [n1, n2]) == map[stem + ".png" := b]
  {
    var n1, n2 := stem + ".mp4" + c1 + ".png", stem + ".mp4" + c2 + ".png";
    SnapshotRenamed(stem, c1);
    SnapshotRenamed(stem, c2);
    DifferentCounters(stem, c1, c2);
    SameNewNameLaterWins(n1, n2, a, b);
  }

  lemma DifferentCounters(stem: string, c1: string, c2: string)
    requires |c1| == |c2| && c1 != c2
    ensures stem + ".mp4" + c1 + ".png" != stem + ".mp4" + c2 + ".png"
  {
    var i :| 0 <= i < |c1| && c1[i] != c2[i];
    assert (stem + ".mp4" + c1 + ".png")[|stem| + 4 + i] == c1[i];
    assert (stem + ".mp4" + c2 + ".png")[|stem| + 4 + i] == c2[i];
  }
}
