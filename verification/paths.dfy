/** The parts of `pathlib` and `os.path` the server uses, on the component
    representation of paths: final component, parent, suffix and stem of a
    name, `with_suffix`, `relative_to(...).as_posix()`, and `basename`. */
module Paths {
  import opened Common

  /** `p.name`: the final component, or "" for `/`. */
  function Name(p: Path): string {
    if p == [] then "" else p[|p| - 1]
  }

  /** `p.parent`; the parent of `/` is `/`. */
  function Parent(p: Path): (r: Path)
    ensures p != [] ==> r + [Name(p)] == p
  {
    if p == [] then [] else p[..|p| - 1]
  }

  lemma ParentOfChild(p: Path, n: string)
    ensures Parent(p + [n]) == p && Name(p + [n]) == n
  {
  }

  /** `name.rfind(c)` as an option. */
  function RFind(name: string, c: char): (r: Option<nat>)
    ensures r.Some? ==> r.value < |name| && name[r.value] == c && c !in name[r.value + 1..]
    ensures r.None? ==> c !in name
  {
    if name == [] then None
    else if name[|name| - 1] == c then Some(|name| - 1)
    else
      var r := RFind(name[..|name| - 1], c);
      assert name == name[..|name| - 1] + [name[|name| - 1]];
      r
  }

  /** Position of the dot that starts the suffix of `name`, if it has one:
      the last dot, provided it is neither the first nor the last character. */
  function SuffixDot(name: string): (r: Option<nat>)
    ensures r.Some? ==> 0 < r.value < |name| - 1 && name[r.value] == '.'
  {
    match RFind(name, '.')
    case Some(i) => if 0 < i < |name| - 1 then Some(i) else None
    case None => None
  }

  /** `PurePath(name).suffix`. */
  function Suffix(name: string): string {
    match SuffixDot(name)
    case Some(i) => name[i..]
    case None => ""
  }

  /** `PurePath(name).stem`. */
  function Stem(name: string): (r: string)
    ensures r + Suffix(name) == name
  {
    match SuffixDot(name)
    case Some(i) => name[..i]
    case None => name
  }

  /** `p.with_suffix(suffix)`: the stem of the final component followed by
      `suffix`; the other components are kept. */
  function WithSuffix(p: Path, suffix: string): (r: Path)
    ensures |r| == |p| || p == []
  {
    if p == [] then [suffix] else Parent(p) + [Stem(Name(p)) + suffix]
  }

  /** A suffix as `with_suffix` accepts it and `Suffix` produces it: a dot
      followed by at least one character, none of them a dot. */
  predicate WellFormedSuffix(ext: string) {
    |ext| >= 2 && ext[0] == '.' && '.' !in ext[1..]
  }

  /** Replacing the suffix of a non-empty name keeps its stem and installs the
      new suffix. */
  lemma {:induction false} StemAndSuffixOfWithSuffix(stem: string, ext: string)
    requires stem != [] && WellFormedSuffix(ext)
    ensures SuffixDot(stem + ext) == Some(|stem|)
    ensures Suffix(stem + ext) == ext && Stem(stem + ext) == stem
  {
    var n := stem + ext;
    assert n[|stem|] == '.';
    assert n[|stem| + 1..] == ext[1..];
    RFindLast(n, '.', |stem|);
  }

  lemma {:induction false} RFindLast(name: string, c: char, i: nat)
    requires i < |name| && name[i] == c && c !in name[i + 1..]
    ensures RFind(name, c) == Some(i)
  {
    if i < |name| - 1 {
      var init := name[..|name| - 1];
      assert name[|name| - 1] in name[i + 1..];
      assert init[i + 1..] == name[i + 1..|name| - 1];
      RFindLast(init, c, i);
    }
  }

  /** Components joined with "/". */
  function Join(cs: seq<string>): string {
    if cs == [] then ""
    else if |cs| == 1 then cs[0]
    else Join(cs[..|cs| - 1]) + "/" + cs[|cs| - 1]
  }

  lemma JoinSnoc(cs: seq<string>, c: string)
    requires cs != []
    ensures Join(cs + [c]) == Join(cs) + "/" + c
  {
    assert (cs + [c])[..|cs|] == cs;
  }

  /** `p.relative_to(root).as_posix()`, or `None` where Python raises
      ValueError because `p` is not `root` or beneath it. */
  function RelPosix(p: Path, root: Path): (r: Option<string>)
    ensures r.Some? <==> root <= p
  {
    if root <= p then
      if |p| == |root| then Some(".") else Some(Join(p[|root|..]))
    else None
  }

  /** `os.path.basename(s)`: the text after the last "/". */
  function Basename(s: string): (r: string)
    ensures '/' !in r
  {
    match RFind(s, '/')
    case Some(i) => s[i + 1..]
    case None => s
  }
}
