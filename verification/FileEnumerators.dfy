/** The enumerator itself, and the size of a directory computed with one. */
module FileEnumerators {
  import opened FileTree
  import opened FileEnumeration

  class FileEnumerator {
    const search: Search
    var hasFindData: bool
    var findData: FindData
    // None is the invalid handle; otherwise what FindNextFile has still to report
    var findHandle: Option<seq<Entry>>
    var rootPath: Path
    var pattern: string
    var pendingPaths: seq<Path>
    /** What Next returned last, if that was a result. */
    ghost var last: Option<Found>

    ghost predicate Valid()
      reads this
    {
      && search.Valid()
      && hasFindData == findHandle.Some?
      && (hasFindData ==> forall e <- findHandle.value :: Reported(search.fs, rootPath, e))
    }

    /** What Next has still to return. */
    ghost function Remaining(): seq<Found>
      reads this
      requires Valid()
    {
      if hasFindData then FromListing(search, rootPath, findHandle.value, pendingPaths)
      else FromStack(search, pendingPaths, pattern)
    }

    /** What bounds the work left: the entries of the open directory and the weight of the pending ones. */
    ghost function Work(): nat
      reads this
    {
      (if findHandle.Some? then WeightOf(findHandle.value) else 0) + StackWeight(search.fs, pendingPaths)
    }

    constructor (fs: FileSystem, rootPath: Path, recursive: bool, fileType: bv8, pattern: string)
      requires Search(fs, recursive, fileType).Valid()
      ensures Valid() && search == Search(fs, recursive, fileType)
      ensures Told() && last == None && Remaining() == Enumeration(search, rootPath, pattern)
    {
      search := Search(fs, recursive, fileType);
      hasFindData := false;
      findData := FindData("", false, 0, 0);
      findHandle := None;
      this.rootPath := [];
      this.pattern := pattern;
      pendingPaths := [rootPath];
      last := None;
    }

    /** The find data are those of the result that Next returned last; after the end, or before Next, there are none. */
    ghost predicate Told()
      reads this
    {
      if last.Some? then hasFindData && findData == last.value.info else !hasFindData
    }

    /** The data of the last result, or else what the caller had. */
    method GetFindInfo(info: FindData) returns (r: FindData)
      requires Told()
      ensures r == match last case Some(found) => found.info case None => info
    {
      r := if hasFindData then findData else info;
    }

    /** An entry has been found and is still to be dealt with; the find handle is behind it. */
    ghost predicate Fetched(e: Entry)
      reads this
    {
      && search.Valid() && hasFindData && findHandle.Some? && findData == Info(e)
      && Reported(search.fs, rootPath, e) && forall f <- findHandle.value :: Reported(search.fs, rootPath, f)
    }

    /** FindFirstFile on the next pending directory, or FindNextFile on the open one. */
    method Fetch() returns (ghost e: Entry)
      requires Valid() && (hasFindData || pendingPaths != [])
      modifies this
      ensures pattern == old(pattern)
      ensures findHandle.None? ==>
        hasFindData && search.Valid() && Work() <= old(Work()) && (Work() == old(Work()) ==> old(hasFindData))
        && old(Remaining()) == FromStack(search, pendingPaths, "")
      ensures findHandle.Some? ==>
        Fetched(e)
        && WeightOf([e] + findHandle.value) + StackWeight(search.fs, pendingPaths) <= old(Work())
        && old(Remaining()) == FromListing(search, rootPath, [e] + findHandle.value, pendingPaths)
    {
      hide Search.Valid, Reported, FromListing, FromStack, StackWeight, WeightOf, Find, Info;
      e := Self;
      if !hasFindData {
        OpenDirectory(search, pendingPaths, pattern);
        rootPath := pendingPaths[|pendingPaths| - 1];
        pendingPaths := pendingPaths[..|pendingPaths| - 1];
        var reports := Find(search.fs, rootPath, pattern);
        if reports == [] {
          findHandle := None;
          CloseDirectory(search, rootPath, pendingPaths);
        } else {
          e := reports[0];
          findHandle, findData := Some(reports[1..]), Info(reports[0]);
          assert [e] + reports[1..] == reports;
        }
        hasFindData := true;
      } else if findHandle.value == [] {
        findHandle := None;
        CloseDirectory(search, rootPath, pendingPaths);
      } else {
        var reports := findHandle.value;
        e := reports[0];
        findData, findHandle := Info(reports[0]), Some(reports[1..]);
        assert [e] + reports[1..] == reports;
      }
    }

    /** The next result, and the empty path once there are none left, however often it is called. */
    method Next() returns (next: FilePath)
      requires Valid()
      modifies this
      ensures Valid() && Told()
      ensures old(Remaining()) == [] ==> next == EmptyPath && last == None && Remaining() == []
      ensures old(Remaining()) != [] ==>
        && next == At(old(Remaining())[0].path) && last == Some(old(Remaining())[0])
        && Remaining() == old(Remaining())[1..]
    {
      hide Search.Valid, Reported, FromListing, FromStack, StackWeight, WeightOf, Search.Pushes,
           Search.Returns, Search.Skips, Search.Has, Search.Wants, Info, Name, IsDirectory;
      while hasFindData || pendingPaths != []
        invariant Valid() && Remaining() == old(Remaining())
        decreases Work(), hasFindData
      {
        ghost var e := Fetch();
        if findHandle.None? {
          hasFindData := false;
          // The pattern is for the root directory only.
          pattern := "";
          continue;
        }
        TakeEntry(search, rootPath, e, findHandle.value, pendingPaths);
        TakenWeight(search, rootPath, e, findHandle.value, pendingPaths);
        EntryData(search, e);
        if search.Skips(findData.fileName) {
          continue;
        }
        var curFile := rootPath + [findData.fileName];
        if findData.isDirectory {
          if search.recursive {
            pendingPaths := pendingPaths + [curFile];
          }
          if search.Has(DIRECTORIES) {
            last := Some(Found(curFile, findData));
            return At(curFile);
          }
        } else if search.Has(FILES) {
          last := Some(Found(curFile, findData));
          return At(curFile);
        }
      }
      NothingFromEmpty(search, pattern);
      next, last := EmptyPath, None;
    }
  }

  lemma EntryData(s: Search, e: Entry)
    ensures Info(e).fileName == Name(e) && Info(e).isDirectory == IsDirectory(e)
    ensures s.Pushes(e) == (!s.Skips(Name(e)) && IsDirectory(e) && s.recursive)
    ensures s.Returns(e) == (!s.Skips(Name(e)) && s.Has(if IsDirectory(e) then DIRECTORIES else FILES))
  {
  }

  // --------------------------------------------------- ComputeDirectorySize

  const RANGE: nat := 0x1_0000_0000_0000_0000

  /** A number as a signed 64-bit integer holds it. */
  function Wrap64(x: int): int {
    (x + RANGE / 2) % RANGE - RANGE / 2
  }

  /** The sum of all file sizes in the tree, whatever lies at the path. */
  method ComputeDirectorySize(fs: FileSystem, rootPath: Path) returns (size: int)
    requires WellFormed(fs.root)
    ensures size == Wrap64(TotalAt(fs, rootPath))
    ensures TotalAt(fs, rootPath) < RANGE / 2 ==> size == TotalAt(fs, rootPath)
  {
    hide WellFormed, Wrap64, TotalAt, FromStack, SumOfSizes, FileEnumerator.Valid, FileEnumerator.Remaining;
    EnumerationTotal(fs, rootPath);
    WrapSmall(0);
    WrapSmall(TotalAt(fs, rootPath));
    size := 0;
    var fileIter := new FileEnumerator(fs, rootPath, true, FILES, "");
    ghost var left := fileIter.Remaining();
    var current := fileIter.Next();
    while current != EmptyPath
      invariant fileIter.Valid()
      invariant (current == EmptyPath) == (left == [])
      invariant fileIter.Told()
      invariant left != [] ==> fileIter.last == Some(left[0]) && fileIter.Remaining() == left[1..]
      invariant Wrap64(size + SumOfSizes(left)) == Wrap64(TotalAt(fs, rootPath))
      invariant size == Wrap64(size)
      decreases |left|
    {
      var info := fileIter.GetFindInfo(FindData("", false, 0, 0));
      SizeStep(size, left);
      size := Wrap64(size + Wrap64(info.sizeHigh * DWORD + info.sizeLow));
      left := left[1..];
      current := fileIter.Next();
    }
    SizeStep(size, left);
  }

  /** One result added with wrap-around leaves the sum in sight. */
  lemma SizeStep(size: int, left: seq<Found>)
    ensures left == [] ==> SumOfSizes(left) == 0
    ensures left != [] ==>
              var next := Wrap64(size + Wrap64(FileSize(left[0].info)));
              Wrap64(next + SumOfSizes(left[1..])) == Wrap64(size + SumOfSizes(left)) && next == Wrap64(next)
  {
    hide Wrap64, FileSize;
    if left != [] {
      var x := FileSize(left[0].info);
      WrapPart(size, x);
      WrapTwice(size + x);
      var next := Wrap64(size + x);
      WrapPart(SumOfSizes(left[1..]), size + x);
    }
  }

  lemma WrapPart(a: int, b: int)
    ensures Wrap64(a + Wrap64(b)) == Wrap64(a + b)
  {}

  lemma WrapTwice(a: int)
    ensures Wrap64(Wrap64(a)) == Wrap64(a)
  {}

  lemma WrapSmall(x: nat)
    ensures x < RANGE / 2 ==> Wrap64(x) == x
  {
  }
}
