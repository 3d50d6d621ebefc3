/** Candidate-file lookups: the video test, and the "first existing candidate
    from a fixed ordered list" rule behind subtitles, folder posters and
    artwork. Whether a file exists on disk is a predicate the caller supplies. */
module Lookup {
  import opened Common
  import opened Config
  import opened Paths

  /** Index of the first candidate, from `k` on, that `present` accepts. */
  function FirstPresentFrom<T>(cands: seq<T>, present: T -> bool, k: nat): (r: Option<nat>)
    requires k <= |cands|
    ensures r.Some? ==> k <= r.value < |cands| && present(cands[r.value])
                        && forall j | k <= j < r.value :: !present(cands[j])
    ensures r.None? ==> forall j | k <= j < |cands| :: !present(cands[j])
    decreases |cands| - k
  {
    if k == |cands| then None
    else if present(cands[k]) then Some(k)
    else FirstPresentFrom(cands, present, k + 1)
  }

  /** The first candidate that exists, in list order, if any. */
  function FirstExisting<T>(cands: seq<T>, present: T -> bool): (r: Option<T>)
    ensures r.None? <==> forall j | 0 <= j < |cands| :: !present(cands[j])
    ensures r.Some? ==> present(r.value)
    ensures r.Some? ==> exists i | 0 <= i < |cands| ::
      r.value == cands[i] && forall j | 0 <= j < i :: !present(cands[j])
  {
    match FirstPresentFrom(cands, present, 0)
    case Some(i) => Some(cands[i])
    case None => None
  }

  /** The early-return loop over the candidates: the first one that exists
      is returned, or nothing when none does. */
  method FindFirstExisting<T>(cands: seq<T>, present: T -> bool) returns (r: Option<T>)
    ensures r == FirstExisting(cands, present)
  {
    var i := 0;
    while i < |cands|
      invariant 0 <= i <= |cands|
      invariant FirstPresentFrom(cands, present, i) == FirstPresentFrom(cands, present, 0)
    {
      if present(cands[i]) {
        return Some(cands[i]);
      }
      i := i + 1;
    }
    return None;
  }

  /** Choosing the first existing candidate: an existing candidate is never
      passed over in favour of a later one. */
  lemma FirstExistingIsFirst<T>(cands: seq<T>, present: T -> bool, i: nat)
    requires i < |cands| && present(cands[i])
    ensures FirstExisting(cands, present).Some?
    ensures exists k | 0 <= k <= i :: FirstExisting(cands, present) == Some(cands[k])
  {
    var k := FirstPresentFrom(cands, present, 0).value;
    assert k <= i;
  }

  /** The file at `p` is catalogued as a video: its suffix, lower-cased, is
      one of the video suffixes. */
  predicate IsVideo(p: Path) {
    Lower(Suffix(Name(p))) in VideoExts
  }

  /** A video file has a non-empty name with a dot in it after the first
      character; a bare ".mp4" is not a video. */
  lemma VideoHasStem(p: Path)
    requires IsVideo(p)
    ensures Name(p) != "" && Stem(Name(p)) != "" && SuffixDot(Name(p)).Some?
  {
    assert Suffix(Name(p)) != "";
  }

  // ---------------------------------------------------------------------
  // Subtitles

  /** The subtitle candidates as the server computes them: the suffix is
      removed once, and then `with_suffix` replaces whatever suffix remains. */
  function SubtitleCandidatesAsWritten(p: Path): seq<Path> {
    seq(|SubExts|, i requires 0 <= i < |SubExts| => WithSuffix(WithSuffix(p, ""), SubExts[i]))
  }

  /** The server's candidates drop the media file's suffix and then one more:
      the name tried is the stem of the stem, with the subtitle suffix. */
  lemma SubtitleCandidatesAsWrittenStripTwice(p: Path, i: nat)
    requires p != [] && i < |SubExts|
    ensures |SubtitleCandidatesAsWritten(p)| == |SubExts|
    ensures SubtitleCandidatesAsWritten(p)[i] == Parent(p) + [Stem(Stem(Name(p))) + SubExts[i]]
  {
    var q := WithSuffix(p, "");
    assert Stem(Name(p)) + "" == Stem(Name(p));
    ParentOfChild(Parent(p), Stem(Name(p)));
    assert Parent(q) == Parent(p) && Name(q) == Stem(Name(p));
  }

  /** The subtitle candidates that share the media file's stem. */
  function SubtitleCandidates(p: Path): seq<Path> {
    seq(|SubExts|, i requires 0 <= i < |SubExts| => WithSuffix(p, SubExts[i]))
  }

  /** Each corrected candidate sits beside the media file, keeps its stem and
      carries the subtitle suffix, tried in the configured order. */
  lemma SubtitleCandidatesShareStem(p: Path, i: nat)
    requires Name(p) != "" && i < |SubExts|
    ensures |SubtitleCandidates(p)| == |SubExts|
    ensures Parent(SubtitleCandidates(p)[i]) == Parent(p)
    ensures Stem(Name(SubtitleCandidates(p)[i])) == Stem(Name(p))
    ensures Suffix(Name(SubtitleCandidates(p)[i])) == SubExts[i]
  {
    var c := SubtitleCandidates(p)[i];
    assert c == Parent(p) + [Stem(Name(p)) + SubExts[i]];
    assert Stem(Name(p)) != "" by {
      if SuffixDot(Name(p)).None? {
        assert Stem(Name(p)) == Name(p);
      }
    }
    assert WellFormedSuffix(SubExts[i]) by {
      assert SubExts[i] == ".srt" || SubExts[i] == ".vtt";
    }
    StemAndSuffixOfWithSuffix(Stem(Name(p)), SubExts[i]);
  }

  /** A media file whose stem itself contains a dot, such as
      `Movie.2019.mp4`: the server looks for `Movie.srt`, not `Movie.2019.srt`. */
  lemma SubtitleAsWrittenDropsInnerSuffix()
    ensures SubtitleCandidatesAsWritten(["lib", "Movie.2019.mp4"]) == [["lib", "Movie.srt"], ["lib", "Movie.vtt"]]
    ensures SubtitleCandidates(["lib", "Movie.2019.mp4"])[0] == ["lib", "Movie.2019.srt"]
  {
    var p: Path := ["lib", "Movie.2019.mp4"];
    assert Name(p) == "Movie.2019" + ".mp4" && Parent(p) == ["lib"];
    StemAndSuffixOfWithSuffix("Movie.2019", ".mp4");
    var q := WithSuffix(p, "");
    assert "Movie.2019" + "" == "Movie.2019";
    assert q == ["lib", "Movie.2019"];
    assert Name(q) == "Movie" + ".2019" && Parent(q) == ["lib"];
    StemAndSuffixOfWithSuffix("Movie", ".2019");
    assert SubExts[0] == ".srt" && SubExts[1] == ".vtt";
    assert "Movie" + ".srt" == "Movie.srt" && "Movie.2019" + ".srt" == "Movie.2019.srt";
    assert "Movie" + ".vtt" == "Movie.vtt";
    assert SubtitleCandidatesAsWritten(p)[0] == WithSuffix(q, ".srt") == ["lib", "Movie" + ".srt"];
    assert SubtitleCandidatesAsWritten(p)[1] == WithSuffix(q, ".vtt") == ["lib", "Movie" + ".vtt"];
    assert SubtitleCandidates(p)[0] == WithSuffix(p, ".srt") == ["lib", "Movie.2019" + ".srt"];
  }

  /** The subtitle served for a media file: the first existing candidate. */
  function FindSubtitle(p: Path, present: Path -> bool): Option<Path> {
    FirstExisting(SubtitleCandidates(p), present)
  }

  // ---------------------------------------------------------------------
  // Posters

  function PosterCandidates(d: Path): seq<Path> {
    seq(|PosterNames|, i requires 0 <= i < |PosterNames| => d + [PosterNames[i]])
  }

  /** The folder poster: the first existing conventional image inside `d`. */
  function FindPoster(d: Path, present: Path -> bool): Option<Path> {
    FirstExisting(PosterCandidates(d), present)
  }

  /** A poster is one of the four conventional names inside the folder, and
      no earlier name in the list exists. */
  lemma PosterIsFirstConventionalName(d: Path, present: Path -> bool)
    ensures FindPoster(d, present).Some? ==>
      exists i | 0 <= i < |PosterNames| ::
        && FindPoster(d, present).value == d + [PosterNames[i]]
        && forall j | 0 <= j < i :: !present(d + [PosterNames[j]])
    ensures FindPoster(d, present).None? ==> forall j | 0 <= j < |PosterNames| :: !present(d + [PosterNames[j]])
  {
    var cands := PosterCandidates(d);
    match FirstPresentFrom(cands, present, 0)
    case Some(i) =>
      assert forall j | 0 <= j < i :: cands[j] == d + [PosterNames[j]];
    case None =>
      assert forall j | 0 <= j < |PosterNames| :: cands[j] == d + [PosterNames[j]];
  }

  // ---------------------------------------------------------------------
  // Artwork

  /** The artwork candidates for a requested base name: the name itself, then
      its stem with each artwork suffix, all inside the images directory. */
  function ArtCandidates(root: Path, base: string): seq<Path> {
    [root + [ImagesDir, base]]
      + seq(|ArtExts|, i requires 0 <= i < |ArtExts| => root + [ImagesDir, BaseStem(base) + ArtExts[i]])
  }

  /** `Path(base).stem` for a name without "/": pathlib reads "." as the
      empty relative path, whose stem is empty. */
  function BaseStem(base: string): string {
    if base == "." then "" else Stem(base)
  }

  /** Requesting `show.png` when only `show.jpg` exists falls through to the
      stem search and resolves to `show.jpg`; requesting `show` finds it too. */
  lemma ArtFallsBackToStem(root: Path, isFile: Path -> bool)
    requires isFile(root + [ImagesDir, "show.jpg"])
    requires !isFile(root + [ImagesDir, "show.png"]) && !isFile(root + [ImagesDir, "show"])
    ensures FirstExisting(ArtCandidates(root, "show.png"), isFile) == Some(root + [ImagesDir, "show.jpg"])
    ensures FirstExisting(ArtCandidates(root, "show"), isFile) == Some(root + [ImagesDir, "show.jpg"])
  {
    StemAndSuffixOfWithSuffix("show", ".png");
    assert "show.png" == "show" + ".png";
    assert RFind("show", '.').None?;
    assert Stem("show") == "show";
    assert BaseStem("show.png") == Stem("show.png") && BaseStem("show") == Stem("show");
    assert "show" + ".jpg" == "show.jpg" && "show" + ".png" == "show.png";
    assert ArtExts[0] == ".png" && ArtExts[1] == ".jpg";
    var c1 := ArtCandidates(root, "show.png");
    assert c1[0] == root + [ImagesDir, "show.png"];
    assert c1[1] == root + [ImagesDir, "show" + ".png"];
    assert c1[2] == root + [ImagesDir, "show" + ".jpg"];
    assert !isFile(c1[0]) && !isFile(c1[1]) && isFile(c1[2]);
    assert FirstPresentFrom(c1, isFile, 0) == Some(2);
    var c2 := ArtCandidates(root, "show");
    assert c2[0] == root + [ImagesDir, "show"];
    assert c2[1] == root + [ImagesDir, "show" + ".png"];
    assert c2[2] == root + [ImagesDir, "show" + ".jpg"];
    assert !isFile(c2[0]) && !isFile(c2[1]) && isFile(c2[2]);
    assert FirstPresentFrom(c2, isFile, 0) == Some(2);
  }
}
