/// Enumerating and selecting the animated GIF files of a directory on the
/// SD card. The card is abstract: which directories open and the names
/// they list, in order, and which paths open as files.
module FilenameFunctions {
  import opened Arduino
  import opened Wrappers

  /** The SD card as the filename functions see it. */
  datatype Volume = Volume(dirs: map<string, seq<string>>, files: set<string>)

  /** `filenameString[0]`: the first character, or NUL for an empty name
      (std::string yields its terminator at index `length()`). */
  function FirstChar(s: string): char
  {
    if s == [] then '\0' else s[0]
  }

  predicate IsHiddenMark(c: char)
  {
    c == '_' || c == '~' || c == '.'
  }

  /** `isAnimationFile`: names starting with '_', '~' or '.' are skipped;
      otherwise the upper-cased name must end with ".GIF". */
  predicate IsAnimationFile(name: string)
    ensures IsAnimationFile(name) ==> |name| >= 4 && !IsHiddenMark(name[0])
  {
    !IsHiddenMark(FirstChar(name)) && EndsWith(Upper(name), ".GIF")
  }

  /** Two names that differ only in the case of their letters are both
      animation files or both not. */
  lemma AnimationFileCaseInsensitive(s: string, t: string)
    requires Upper(s) == Upper(t)
    ensures IsAnimationFile(s) == IsAnimationFile(t)
  {
    if s != [] {
      assert ToUpperChar(s[0]) == Upper(s)[0] == Upper(t)[0] == ToUpperChar(t[0]);
    }
  }

  /** The filter on a few names, as the sketch meets them on a card. */
  lemma AnimationFileExamples()
    ensures IsAnimationFile("cat.gif") && IsAnimationFile("Dance.GiF")
    ensures !IsAnimationFile("_cat.gif") && !IsAnimationFile("~cat.gif") && !IsAnimationFile(".cat.gif")
    ensures !IsAnimationFile("cat.png") && !IsAnimationFile("") && !IsAnimationFile("gif")
  {
    assert Upper("cat.gif") == "CAT.GIF";
    assert Upper("Dance.GiF") == "DANCE.GIF";
    assert Upper("cat.gif")[3..] == ".GIF";
    assert Upper("Dance.GiF")[5..] == ".GIF";
    assert Upper("cat.png") == "CAT.PNG";
    assert Upper("gif") == "GIF";
  }

  /** The animation files of a listing, in listing order. */
  function AnimationFiles(listing: seq<string>): (r: seq<string>)
    ensures |r| <= |listing|
    decreases |listing|
  {
    if listing == [] then []
    else
      var last := listing[|listing| - 1];
      AnimationFiles(listing[..|listing| - 1]) + (if IsAnimationFile(last) then [last] else [])
  }

  /** Only animation files of the listing are kept. */
  lemma {:induction false} AnimationFilesSound(listing: seq<string>, i: int)
    requires 0 <= i < |AnimationFiles(listing)|
    ensures IsAnimationFile(AnimationFiles(listing)[i]) && AnimationFiles(listing)[i] in listing
    decreases |listing|
  {
    var init := listing[..|listing| - 1];
    if i < |AnimationFiles(init)| {
      AnimationFilesSound(init, i);
      assert AnimationFiles(listing)[i] == AnimationFiles(init)[i];
      assert listing == init + [listing[|listing| - 1]];
    }
  }

  /** Every animation file of the listing is kept: the filter drops exactly
      the names that fail `isAnimationFile`. */
  lemma {:induction false} AnimationFilesComplete(listing: seq<string>, name: string)
    requires name in listing && IsAnimationFile(name)
    ensures name in AnimationFiles(listing)
    decreases |listing|
  {
    var init := listing[..|listing| - 1];
    if name != listing[|listing| - 1] {
      assert listing == init + [listing[|listing| - 1]];
      AnimationFilesComplete(init, name);
    }
  }

  /** Filtering a prefix of the listing gives a prefix of the filtered listing. */
  lemma {:induction false} AnimationFilesPrefix(listing: seq<string>, k: nat)
    requires k <= |listing|
    ensures AnimationFiles(listing[..k]) <= AnimationFiles(listing)
    decreases |listing| - k
  {
    if k < |listing| {
      AnimationFilesPrefix(listing, k + 1);
      assert listing[..k + 1][..k] == listing[..k];
    } else {
      assert listing[..k] == listing;
    }
  }

  /** Where the walk of `getGIFFilenameByIndex` stops: once it has passed
      `index + 1` animation files, or at the end of the listing. The last
      file it passed is the one `FilenameByIndex` picks. */
  lemma ScanFinds(listing: seq<string>, k: nat, index: int)
    requires k <= |listing| && 0 <= index
    requires index - |AnimationFiles(listing[..k])| >= -1
    requires index - |AnimationFiles(listing[..k])| >= 0 ==> k == |listing|
    ensures var seen, found := AnimationFiles(listing[..k]), AnimationFiles(listing);
            && (seen == [] <==> found == [])
            && (seen != [] ==> seen[|seen| - 1] == found[Min(index, |found| - 1)])
  {
    var seen, found := AnimationFiles(listing[..k]), AnimationFiles(listing);
    AnimationFilesPrefix(listing, k);
    if index - |seen| < 0 {
      assert |seen| == index + 1;
      assert found[index] == seen[index];
    } else {
      assert listing[..k] == listing;
    }
  }

  /** One more entry of the listing extends the filtered list by that entry
      if it is an animation file. */
  lemma AnimationFilesStep(listing: seq<string>, k: nat)
    requires k < |listing|
    ensures AnimationFiles(listing[..k + 1])
            == AnimationFiles(listing[..k]) + (if IsAnimationFile(listing[k]) then [listing[k]] else [])
  {
    assert listing[..k + 1][..k] == listing[..k];
  }

  /** The pathname built from the directory and an entry name: the
      directory, a '/' only if the directory is empty or does not end in
      one, then the name. */
  function PathFor(dir: string, name: string): (r: string)
  {
    if |dir| == 0 || dir[|dir| - 1] != '/' then dir + "/" + name else dir + name
  }

  /** The pathname starts with the directory and ends with the name, with
      exactly one '/' before the name and at most one character added. */
  lemma PathForShape(dir: string, name: string)
    ensures var r := PathFor(dir, name);
            && |dir| + |name| <= |r| <= |dir| + |name| + 1
            && r[..|dir|] == dir && r[|r| - |name|..] == name
            && |r| - |name| >= 1 && r[|r| - |name| - 1] == '/'
  {
    var r := PathFor(dir, name);
    if |dir| == 0 || dir[|dir| - 1] != '/' {
      assert r == dir + "/" + name;
      assert r[..|dir|] == dir && r[|dir|] == '/' && r[|dir| + 1..] == name;
    } else {
      assert r == dir + name;
      assert r[..|dir|] == dir && r[|dir|..] == name;
    }
  }

  /** A directory that already ends in '/' gets no second one. */
  lemma PathForTrailingSlash(dir: string, name: string)
    requires |dir| > 0 && dir[|dir| - 1] == '/'
    ensures PathFor(dir, name) == dir + name
  {
  }

  /** What `getGIFFilenameByIndex` leaves in the buffer. `numberOfFiles`
      is the count the last enumeration stored; the directory is read
      again, so it may list fewer animation files than that count, and
      then the last one found is kept. */
  function FilenameByIndex(vol: Volume, dir: string, numberOfFiles: int, index: int, buf: string): (r: string)
    ensures index < 0 || index >= numberOfFiles || dir !in vol.dirs ==> r == buf
  {
    if index < 0 || index >= numberOfFiles || dir !in vol.dirs then buf
    else
      var found := AnimationFiles(vol.dirs[dir]);
      if found == [] then buf
      else
        PathFor(dir, found[Min(index, |found| - 1)])
  }

  /** After an enumeration of the same directory, an index in range names
      the index-th animation file (counting from 0) of the listing, and an
      index out of range leaves the buffer as it was. */
  lemma FilenameByIndexAfterEnumeration(vol: Volume, dir: string, index: int, buf: string)
    requires dir in vol.dirs
    ensures var n := |AnimationFiles(vol.dirs[dir])|;
            && (0 <= index < n ==>
                  FilenameByIndex(vol, dir, n, index, buf) == PathFor(dir, AnimationFiles(vol.dirs[dir])[index]))
            && (index < 0 || index >= n ==> FilenameByIndex(vol, dir, n, index, buf) == buf)
  {
  }

  /** The one global of the file: the count of the last enumeration, and
      the file left open for the decoder's callbacks. */
  class Catalog {
    var numberOfFiles: int
    var openFile: Option<string>

    constructor ()
      ensures numberOfFiles == 0 && openFile == None
    {
      numberOfFiles := 0;
      openFile := None;
    }

    /** `enumerateGIFFiles`: -1 when the directory does not open, otherwise
        the number of animation files it lists, which is also stored. */
    method EnumerateGIFFiles(vol: Volume, dir: string) returns (r: int)
      modifies this
      ensures dir !in vol.dirs ==> r == -1 && numberOfFiles == 0
      ensures dir in vol.dirs ==> r == numberOfFiles == |AnimationFiles(vol.dirs[dir])|
      ensures openFile == old(openFile)
    {
      numberOfFiles := 0;
      if dir !in vol.dirs {
        return -1;
      }
      var listing := vol.dirs[dir];
      var k := 0;
      while k < |listing|
        invariant 0 <= k <= |listing|
        invariant numberOfFiles == |AnimationFiles(listing[..k])|
        invariant openFile == old(openFile)
      {
        AnimationFilesStep(listing, k);
        if IsAnimationFile(listing[k]) {
          numberOfFiles := numberOfFiles + 1;
        }
        k := k + 1;
      }
      assert listing[..k] == listing;
      return numberOfFiles;
    }

    /** `getGIFFilenameByIndex`: walks the listing, counting the index down
        on each animation file and rebuilding the pathname for it, until
        the index goes negative or the listing ends. */
    method GetGIFFilenameByIndex(vol: Volume, dir: string, index: int, buf: string) returns (path: string)
      ensures path == FilenameByIndex(vol, dir, numberOfFiles, index, buf)
    {
      path := buf;
      if index < 0 || index >= numberOfFiles {
        return;
      }
      if dir !in vol.dirs {
        return;
      }
      var listing := vol.dirs[dir];
      var remaining := index;
      var k := 0;
      ghost var seen: seq<string> := [];
      while remaining >= 0 && k < |listing|
        invariant 0 <= k <= |listing|
        invariant seen == AnimationFiles(listing[..k])
        invariant -1 <= remaining == index - |seen|
        invariant seen == [] ==> path == buf
        invariant seen != [] ==> path == PathFor(dir, seen[|seen| - 1])
      {
        AnimationFilesStep(listing, k);
        if IsAnimationFile(listing[k]) {
          remaining := remaining - 1;
          path := PathFor(dir, listing[k]);
          seen := seen + [listing[k]];
        }
        k := k + 1;
      }
      ScanFinds(listing, k, index);
    }

    /** `openGifFilenameByIndex`: builds the pathname into a buffer whose
        earlier contents are `staleBuffer` (the source does not initialise
        it) and opens it; true iff the path opens. */
    method OpenGifFilenameByIndex(vol: Volume, dir: string, index: int, staleBuffer: string)
      returns (ok: bool, path: string)
      modifies this
      ensures path == FilenameByIndex(vol, dir, numberOfFiles, index, staleBuffer)
      ensures ok <==> path in vol.files
      ensures openFile == (if ok then Some(path) else None)
      ensures numberOfFiles == old(numberOfFiles)
    {
      path := GetGIFFilenameByIndex(vol, dir, index, staleBuffer);
      ok := path in vol.files;
      openFile := if ok then Some(path) else None;
    }
  }
}
