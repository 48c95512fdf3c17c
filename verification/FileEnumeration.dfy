/**
 * FileEnumerator: a traversal that is resumed by each call of Next and keeps
 * an explicit stack of the directories it has still to look into.
 */
module FileEnumeration {
  import opened FileTree
  import opened Totals

  const FILES: bv8 := 1
  const DIRECTORIES: bv8 := 2
  const INCLUDE_DOT_DOT: bv8 := 4

  /** A file path as Next returns it; the empty one says that nothing is left. */
  datatype FilePath = EmptyPath | At(path: Path)

  /** A result of Next with what GetFindInfo then reports. */
  datatype Found = Found(path: Path, info: FindData)

  /** What an enumerator was made for. */
  datatype Search = Search(fs: FileSystem, recursive: bool, fileType: bv8) {
    predicate Has(flag: bv8) { fileType & flag != 0 }

    ghost predicate Valid() {
      WellFormed(fs.root) && !(recursive && Has(INCLUDE_DOT_DOT))
    }

    predicate Skips(name: string) {
      name == "." || (name == ".." && !Has(INCLUDE_DOT_DOT))
    }

    predicate Wants(isDirectory: bool) {
      if isDirectory then Has(DIRECTORIES) else Has(FILES)
    }

    predicate Returns(e: Entry) {
      !Skips(Name(e)) && Wants(IsDirectory(e))
    }

    predicate Pushes(e: Entry) {
      recursive && !Skips(Name(e)) && IsDirectory(e)
    }
  }

  /** Bit 0 of the file type asks for files, bit 1 for directories, bit 2 for the parent entry. */
  lemma FileTypes(fs: FileSystem, recursive: bool, fileType: bv8)
    ensures var s := Search(fs, recursive, fileType);
            && (s.Wants(false) <==> fileType & 0x01 == 0x01)
            && (s.Wants(true) <==> fileType & 0x02 == 0x02)
            && (!s.Skips("..") <==> fileType & 0x04 == 0x04)
            && s.Skips(".")
  {
    assert fileType & 1 == 0 || fileType & 1 == 1;
    assert fileType & 2 == 0 || fileType & 2 == 2;
    assert fileType & 4 == 0 || fileType & 4 == 4;
  }

  /** The results that come from the entries of one directory. */
  function Listed(s: Search, dir: Path, items: seq<Entry>): seq<Found> {
    if items == [] then []
    else (if s.Returns(items[0]) then [Found(dir + [Name(items[0])], Info(items[0]))] else [])
         + Listed(s, dir, items[1..])
  }

  /** The directories among them to look into later. */
  function Subdirectories(s: Search, dir: Path, items: seq<Entry>): seq<Path> {
    if items == [] then []
    else (if s.Pushes(items[0]) then [dir + [Name(items[0])]] else []) + Subdirectories(s, dir, items[1..])
  }

  function PathWeight(fs: FileSystem): Path -> int { (path: Path) => WeightAt(fs, path) }

  function StackWeight(fs: FileSystem, stack: seq<Path>): nat {
    TotalNonNegative(PathWeight(fs), stack);
    Total(PathWeight(fs), stack)
  }

  /** What is found when the top directory is looked into, after which the pattern is dropped. */
  function Popped(s: Search, stack: seq<Path>, pattern: string): seq<Path>
    requires stack != []
  {
    var top := stack[|stack| - 1];
    stack[..|stack| - 1] + Subdirectories(s, top, Find(s.fs, top, pattern))
  }

  ghost function FromStack(s: Search, stack: seq<Path>, pattern: string): seq<Found>
    requires s.Valid()
    decreases StackWeight(s.fs, stack)
  {
    if stack == [] then []
    else
      var top := stack[|stack| - 1];
      PoppedWeight(s, stack, pattern);
      Listed(s, top, Find(s.fs, top, pattern)) + FromStack(s, Popped(s, stack, pattern), "")
  }

  /** All results of an enumerator, in order. */
  ghost function Enumeration(s: Search, root: Path, pattern: string): seq<Found>
    requires s.Valid()
  {
    FromStack(s, [root], pattern)
  }

  // ---------------------------------------------------------------- weights

  lemma StackWeightConcat(fs: FileSystem, a: seq<Path>, b: seq<Path>)
    ensures StackWeight(fs, a + b) == StackWeight(fs, a) + StackWeight(fs, b)
  {
    TotalConcat(PathWeight(fs), a, b);
  }

  lemma StackWeightSnoc(fs: FileSystem, below: seq<Path>, top: Path)
    ensures StackWeight(fs, below + [top]) == StackWeight(fs, below) + WeightAt(fs, top)
  {
    TotalSnoc(PathWeight(fs), below, top);
  }

  lemma {:induction false} SubdirectoriesWeight(s: Search, dir: Path, items: seq<Entry>)
    requires s.Valid() && forall e <- items :: Reported(s.fs, dir, e)
    ensures StackWeight(s.fs, Subdirectories(s, dir, items)) <= WeightOf(items)
  {
    hide Lookup;
    if items == [] {
    } else {
      SubdirectoriesWeight(s, dir, items[1..]);
      assert Reported(s.fs, dir, items[0]);
      var rest := Subdirectories(s, dir, items[1..]);
      if s.Pushes(items[0]) {
        var sub := dir + [Name(items[0])];
        assert items[0].Child?;
        assert ([sub] + rest)[1..] == rest;
      } else {
        assert [] + rest == rest;
      }
    }
  }

  lemma PoppedWeight(s: Search, stack: seq<Path>, pattern: string)
    requires s.Valid() && stack != []
    ensures StackWeight(s.fs, Popped(s, stack, pattern)) < StackWeight(s.fs, stack)
  {
    hide Find, Subdirectories, WeightAt, WeightOf;
    var top := stack[|stack| - 1];
    var below := stack[..|stack| - 1];
    var items := Find(s.fs, top, pattern);
    FindReports(s.fs, top, pattern);
    SubdirectoriesWeight(s, top, items);
    FindWeight(s.fs, top, pattern);
    StackWeightConcat(s.fs, below, Subdirectories(s, top, items));
    StackWeightSnoc(s.fs, below, top);
    assert below + [top] == stack;
  }

  // ------------------------------------------------- which entries are found

  function InfoAt(path: Path, n: Node): FindData
    requires path != []
  {
    Info(Child(path[|path| - 1], n))
  }

  /**
   * The entries an enumeration is for, without regard to how it goes about it:
   * what lies below dir, of a wanted kind, whose first name below dir matches
   * the pattern; only directly below dir unless it is recursive.
   */
  predicate Below(s: Search, dir: Path, pattern: string, f: Found) {
    && dir < f.path
    && (pattern == "" || s.fs.matches(pattern, f.path[|dir|]))
    && (s.recursive || |f.path| == |dir| + 1)
    && var n := Lookup(s.fs.root, f.path);
       n.Some? && f.info == InfoAt(f.path, n.value) && s.Wants(n.value.Directory?)
  }

  predicate ParentEntry(s: Search, dir: Path, pattern: string, f: Found) {
    && f == Found(dir + [".."], Info(Parent))
    && s.Has(INCLUDE_DOT_DOT) && s.Has(DIRECTORIES)
    && Parent in ListingAt(s.fs, dir) && Matches(s.fs, pattern, "..")
  }

  predicate Belongs(s: Search, dir: Path, pattern: string, f: Found) {
    Below(s, dir, pattern, f) || ParentEntry(s, dir, pattern, f)
  }

  ghost predicate IsListed(s: Search, dir: Path, items: seq<Entry>, f: Found) {
    exists e <- items :: s.Returns(e) && f == Found(dir + [Name(e)], Info(e))
  }

  ghost predicate IsSubdirectory(s: Search, dir: Path, items: seq<Entry>, path: Path) {
    exists e <- items :: s.Pushes(e) && path == dir + [Name(e)]
  }

  lemma {:induction false} ListedIn(s: Search, dir: Path, items: seq<Entry>, f: Found)
    ensures f in Listed(s, dir, items) <==> IsListed(s, dir, items, f)
  {
    if items == [] {
    } else {
      ListedIn(s, dir, items[1..], f);
      assert items == [items[0]] + items[1..];
    }
  }

  lemma {:induction false} SubdirectoriesIn(s: Search, dir: Path, items: seq<Entry>, path: Path)
    ensures path in Subdirectories(s, dir, items) <==> IsSubdirectory(s, dir, items, path)
  {
    if items == [] {
    } else {
      SubdirectoriesIn(s, dir, items[1..], path);
      assert items == [items[0]] + items[1..];
    }
  }

  /** The results from the directory itself are what belongs directly below it. */
  lemma ListedIsDirect(s: Search, dir: Path, pattern: string, f: Found)
    requires s.Valid()
    ensures f in Listed(s, dir, Find(s.fs, dir, pattern)) <==>
            Belongs(s, dir, pattern, f) && |f.path| == |dir| + 1
  {
    hide Lookup, ListingAt, Find, Listed;
    var items := Find(s.fs, dir, pattern);
    ListedIn(s, dir, items, f);
    if f in Listed(s, dir, items) {
      var e :| e in items && s.Returns(e) && f == Found(dir + [Name(e)], Info(e));
      ListedBelongs(s, dir, pattern, e);
    }
    if Belongs(s, dir, pattern, f) && |f.path| == |dir| + 1 {
      var name := f.path[|dir|];
      assert f.path == dir + [name];
      var e := if ParentEntry(s, dir, pattern, f) then Parent
               else Child(name, Lookup(s.fs.root, f.path).value);
      if e.Child? {
        ListedIsThere(s.fs, dir, name, e.node);
      }
      FindIn(s.fs, dir, pattern, e);
      FindReports(s.fs, dir, pattern);
      assert Reported(s.fs, dir, e);
      assert s.Returns(e) && f == Found(dir + [Name(e)], Info(e));
    }
  }

  lemma FindIn(fs: FileSystem, dir: Path, pattern: string, e: Entry)
    ensures e in Find(fs, dir, pattern) <==> e in ListingAt(fs, dir) && Matches(fs, pattern, Name(e))
  {
    MatchingIn(fs, pattern, ListingAt(fs, dir), e);
  }

  lemma ListedBelongs(s: Search, dir: Path, pattern: string, e: Entry)
    requires s.Valid() && e in Find(s.fs, dir, pattern) && s.Returns(e)
    ensures Belongs(s, dir, pattern, Found(dir + [Name(e)], Info(e)))
  {
    hide Lookup, ListingAt, Find;
    FindReports(s.fs, dir, pattern);
    FindIn(s.fs, dir, pattern, e);
    assert Reported(s.fs, dir, e);
  }

  /** What belongs further down belongs below one of the subdirectories. */
  lemma DeeperIsInSubdirectory(s: Search, dir: Path, pattern: string, f: Found)
    requires s.Valid() && Belongs(s, dir, pattern, f) && |f.path| > |dir| + 1
    ensures f.path[..|dir| + 1] in Subdirectories(s, dir, Find(s.fs, dir, pattern))
    ensures Belongs(s, f.path[..|dir| + 1], "", f)
  {
    hide Lookup, ListingAt, Find, Subdirectories;
    var name := f.path[|dir|];
    var sub := f.path[..|dir| + 1];
    assert sub == dir + [name];
    PassedIsDirectory(s.fs, f.path, |dir| + 1);
    var e := Child(name, Lookup(s.fs.root, sub).value);
    ListedIsThere(s.fs, dir, name, e.node);
    FindIn(s.fs, dir, pattern, e);
    FindReports(s.fs, dir, pattern);
    assert Reported(s.fs, dir, e) && s.Pushes(e);
    SubdirectoriesIn(s, dir, Find(s.fs, dir, pattern), sub);
  }

  lemma PassedIsDirectory(fs: FileSystem, path: Path, k: nat)
    requires k < |path| && Lookup(fs.root, path).Some?
    ensures Lookup(fs.root, path[..k]).Some? && Lookup(fs.root, path[..k]).value.Directory?
  {
    LookupPrefix(fs.root, path[..k], path[k..]);
    assert path[..k] + path[k..] == path;
  }

  lemma SubdirectoryBelongs(s: Search, dir: Path, pattern: string, sub: Path, f: Found)
    requires s.Valid() && sub in Subdirectories(s, dir, Find(s.fs, dir, pattern)) && Belongs(s, sub, "", f)
    ensures Belongs(s, dir, pattern, f) && |f.path| > |dir| + 1
  {
    hide Lookup, ListingAt, Find, Subdirectories;
    SubdirectoriesIn(s, dir, Find(s.fs, dir, pattern), sub);
    var e :| e in Find(s.fs, dir, pattern) && s.Pushes(e) && sub == dir + [Name(e)];
    FindIn(s.fs, dir, pattern, e);
  }

  ghost predicate BelongsToStack(s: Search, stack: seq<Path>, pattern: string, f: Found) {
    exists i :: 0 <= i < |stack| && Belongs(s, stack[i], if i == |stack| - 1 then pattern else "", f)
  }

  lemma {:induction false} FromStackExact(s: Search, stack: seq<Path>, pattern: string, f: Found)
    requires s.Valid()
    ensures f in FromStack(s, stack, pattern) <==> BelongsToStack(s, stack, pattern, f)
    decreases StackWeight(s.fs, stack)
  {
    hide Belongs, Listed, Subdirectories, Find, StackWeight;
    if stack == [] {
    } else {
      var top := stack[|stack| - 1];
      PoppedWeight(s, stack, pattern);
      FromStackExact(s, Popped(s, stack, pattern), "", f);
      ListedIsDirect(s, top, pattern, f);
      PoppedBelongs(s, stack, pattern, f);
    }
  }

  lemma PoppedBelongs(s: Search, stack: seq<Path>, pattern: string, f: Found)
    requires s.Valid() && stack != []
    ensures BelongsToStack(s, stack, pattern, f) <==>
            || BelongsToStack(s, Popped(s, stack, pattern), "", f)
            || (Belongs(s, stack[|stack| - 1], pattern, f) && |f.path| == |stack[|stack| - 1]| + 1)
  {
    hide Belongs, Subdirectories, Find;
    var n := |stack| - 1;
    var top := stack[n];
    var subs := Subdirectories(s, top, Find(s.fs, top, pattern));
    var popped := Popped(s, stack, pattern);
    if BelongsToStack(s, popped, "", f) {
      var i :| 0 <= i < |popped| && Belongs(s, popped[i], "", f);
      if i < n {
        assert popped[i] == stack[i];
      } else {
        assert popped[i] == subs[i - n];
        SubdirectoryBelongs(s, top, pattern, popped[i], f);
      }
    }
    if BelongsToStack(s, stack, pattern, f) {
      var i :| 0 <= i < |stack| && Belongs(s, stack[i], if i == n then pattern else "", f);
      if i < n {
        assert popped[i] == stack[i];
      } else {
        BelongsIsBelow(s, top, pattern, f);
        if |f.path| > |top| + 1 {
          DeeperIsInSubdirectory(s, top, pattern, f);
          var k :| 0 <= k < |subs| && subs[k] == f.path[..|top| + 1];
          assert popped[n + k] == subs[k];
        }
      }
    }
  }

  lemma BelongsIsBelow(s: Search, dir: Path, pattern: string, f: Found)
    requires Belongs(s, dir, pattern, f)
    ensures dir < f.path && (!s.recursive ==> |f.path| == |dir| + 1)
  {
  }

  /** An enumeration finds what belongs to it and nothing else. */
  lemma EnumerationExact(s: Search, root: Path, pattern: string, f: Found)
    requires s.Valid()
    ensures f in Enumeration(s, root, pattern) <==> Belongs(s, root, pattern, f)
  {
    hide Belongs, FromStack;
    FromStackExact(s, [root], pattern, f);
    assert [root][0] == root;
  }

  // ------------------------------------------- each once, and in which order

  /** No path of the stack lies within another. */
  predicate Apart(stack: seq<Path>) {
    forall i, j :: 0 <= i < j < |stack| ==> !(stack[i] <= stack[j]) && !(stack[j] <= stack[i])
  }

  lemma {:induction false} SubdirectoriesApart(s: Search, dir: Path, items: seq<Entry>)
    requires DistinctNames(items)
    ensures Apart(Subdirectories(s, dir, items))
  {
    hide Search.Pushes;
    if items == [] {
    } else {
      var subs := Subdirectories(s, dir, items[1..]);
      SubdirectoriesApart(s, dir, items[1..]);
      var first := dir + [Name(items[0])];
      forall k | 0 <= k < |subs| ensures !(first <= subs[k]) && !(subs[k] <= first) {
        SubdirectoriesIn(s, dir, items[1..], subs[k]);
        var e :| e in items[1..] && subs[k] == dir + [Name(e)];
        assert first[|dir|] == Name(items[0]) && subs[k][|dir|] == Name(e);
      }
    }
  }

  lemma PoppedApart(s: Search, stack: seq<Path>, pattern: string)
    requires s.Valid() && stack != [] && Apart(stack)
    ensures Apart(Popped(s, stack, pattern))
  {
    hide Subdirectories, Find;
    var n := |stack| - 1;
    var top := stack[n];
    var items := Find(s.fs, top, pattern);
    var subs := Subdirectories(s, top, items);
    FindReports(s.fs, top, pattern);
    SubdirectoriesApart(s, top, items);
    forall i, k | 0 <= i < n && 0 <= k < |subs| ensures !(stack[i] <= subs[k]) && !(subs[k] <= stack[i]) {
      SubdirectoriesIn(s, top, items, subs[k]);
      ApartFromChild(stack[i], top, subs[k]);
    }
  }

  lemma ApartFromChild(a: Path, top: Path, sub: Path)
    requires !(a <= top) && !(top <= a) && top < sub && |sub| == |top| + 1
    ensures !(a <= sub) && !(sub <= a)
  {
  }

  function Dir(f: Found): Path
    requires f.path != []
  {
    f.path[..|f.path| - 1]
  }

  predicate Once(found: seq<Found>) {
    forall i, j :: 0 <= i < j < |found| ==> found[i].path != found[j].path
  }

  /** The entries of one directory are next to each other. */
  predicate Together(found: seq<Found>)
    requires forall f <- found :: f.path != []
  {
    forall i, j, k :: 0 <= i <= j <= k < |found| && Dir(found[i]) == Dir(found[k]) ==> Dir(found[j]) == Dir(found[i])
  }

  /** The entries of a directory come before anything inside its subdirectories. */
  predicate OutsideIn(found: seq<Found>)
    requires forall f <- found :: f.path != []
  {
    forall i, j :: 0 <= i < |found| && 0 <= j < |found| && Dir(found[i]) < Dir(found[j]) ==> i < j
  }

  predicate InOrder(found: seq<Found>) {
    (forall f <- found :: f.path != []) && Once(found) && Together(found) && OutsideIn(found)
  }

  lemma {:induction false} ListedDistinct(s: Search, dir: Path, items: seq<Entry>)
    requires DistinctNames(items)
    ensures var found := Listed(s, dir, items);
            Once(found) && (forall f <- found :: f.path != [] && Dir(f) == dir)
  {
    hide Search.Returns, Info;
    if items == [] {
    } else {
      var rest := Listed(s, dir, items[1..]);
      ListedDistinct(s, dir, items[1..]);
      var first := dir + [Name(items[0])];
      assert first[..|first| - 1] == dir;
      forall k | 0 <= k < |rest| ensures rest[k].path != first {
        ListedIn(s, dir, items[1..], rest[k]);
        var e :| e in items[1..] && rest[k].path == dir + [Name(e)];
        assert first[|dir|] == Name(items[0]) && rest[k].path[|dir|] == Name(e);
      }
    }
  }

  /** The results from one directory, and then results from elsewhere that are not from above it. */
  predicate Joinable(dir: Path, first: seq<Found>, rest: seq<Found>) {
    && (forall f <- first :: f.path != [] && Dir(f) == dir)
    && (forall f <- rest :: f.path != [] && !(Dir(f) <= dir))
  }

  lemma JoinOnce(dir: Path, first: seq<Found>, rest: seq<Found>)
    requires Joinable(dir, first, rest) && Once(first) && Once(rest)
    ensures Once(first + rest)
  {}

  lemma JoinTogether(dir: Path, first: seq<Found>, rest: seq<Found>)
    requires Joinable(dir, first, rest) && Together(rest)
    ensures Together(first + rest)
  {}

  lemma JoinOutsideIn(dir: Path, first: seq<Found>, rest: seq<Found>)
    requires Joinable(dir, first, rest) && OutsideIn(rest)
    ensures OutsideIn(first + rest)
  {}

  lemma {:induction false} FromStackInOrder(s: Search, stack: seq<Path>, pattern: string)
    requires s.Valid() && Apart(stack)
    ensures InOrder(FromStack(s, stack, pattern))
    decreases StackWeight(s.fs, stack)
  {
    hide Belongs, Listed, Subdirectories, Find, StackWeight, Apart, Once, Together, OutsideIn;
    if stack != [] {
      var top := stack[|stack| - 1];
      var popped := Popped(s, stack, pattern);
      var items := Find(s.fs, top, pattern);
      var first, rest := Listed(s, top, items), FromStack(s, popped, "");
      PoppedWeight(s, stack, pattern);
      PoppedApart(s, stack, pattern);
      FromStackInOrder(s, popped, "");
      FindReports(s.fs, top, pattern);
      ListedDistinct(s, top, items);
      forall f <- rest ensures !(Dir(f) <= top) {
        RestIsElsewhere(s, stack, pattern, f);
      }
      JoinOnce(top, first, rest);
      JoinTogether(top, first, rest);
      JoinOutsideIn(top, first, rest);
    } else {
      EmptyInOrder();
    }
  }

  lemma EmptyInOrder()
    ensures InOrder([])
  {
  }

  lemma RestIsElsewhere(s: Search, stack: seq<Path>, pattern: string, f: Found)
    requires s.Valid() && Apart(stack) && stack != [] && f.path != []
    requires f in FromStack(s, Popped(s, stack, pattern), "")
    ensures !(Dir(f) <= stack[|stack| - 1])
  {
    hide Belongs, Subdirectories, Find, FromStack;
    var n := |stack| - 1;
    var top := stack[n];
    var popped := Popped(s, stack, pattern);
    FromStackExact(s, popped, "", f);
    var i :| 0 <= i < |popped| && Belongs(s, popped[i], "", f);
    BelongsIsBelow(s, popped[i], "", f);
    if i >= n {
      SubdirectoriesIn(s, top, Find(s.fs, top, pattern), popped[i]);
      assert |popped[i]| == |top| + 1;
    }
  }

  /** An enumeration finds each path once, directory by directory, from the outside in. */
  lemma EnumerationInOrder(s: Search, root: Path, pattern: string)
    requires s.Valid()
    ensures InOrder(Enumeration(s, root, pattern))
  {
    hide InOrder, FromStack;
    FromStackInOrder(s, [root], pattern);
  }

  // --------------------------------------------------- the stack and the tree

  /** The enumerations of several directories, the last directory first. */
  ghost function LastFirst(s: Search, dirs: seq<Path>): seq<Found>
    requires s.Valid()
  {
    if dirs == [] then []
    else LastFirst(s, dirs[1..]) + Enumeration(s, dirs[0], "")
  }

  lemma {:induction false} FromStackConcat(s: Search, a: seq<Path>, b: seq<Path>)
    requires s.Valid()
    ensures FromStack(s, a + b, "") == FromStack(s, b, "") + FromStack(s, a, "")
    decreases StackWeight(s.fs, b)
  {
    hide Listed, Subdirectories, Find, StackWeight;
    if b == [] {
      assert a + b == a;
    } else {
      var popped := Popped(s, b, "");
      PoppedWeight(s, b, "");
      FromStackConcat(s, a, popped);
      PoppedConcat(s, a, b);
    }
  }

  lemma PoppedConcat(s: Search, a: seq<Path>, b: seq<Path>)
    requires b != []
    ensures Popped(s, a + b, "") == a + Popped(s, b, "")
  {}

  lemma {:induction false} FromStackLastFirst(s: Search, dirs: seq<Path>)
    requires s.Valid()
    ensures FromStack(s, dirs, "") == LastFirst(s, dirs)
  {
    hide FromStack;
    if dirs == [] {
      NothingFromEmpty(s, "");
    } else {
      FromStackConcat(s, [dirs[0]], dirs[1..]);
      assert [dirs[0]] + dirs[1..] == dirs;
      FromStackLastFirst(s, dirs[1..]);
    }
  }

  lemma NothingFromEmpty(s: Search, pattern: string)
    requires s.Valid()
    ensures FromStack(s, [], pattern) == []
  {
  }

  /**
   * The traversal with a stack is the recursive walk: the matching entries of a
   * directory, then its subdirectories whole, the last one first.
   */
  lemma EnumerationWalksTree(s: Search, root: Path, pattern: string)
    requires s.Valid()
    ensures var items := Find(s.fs, root, pattern);
            Enumeration(s, root, pattern) == Listed(s, root, items) + LastFirst(s, Subdirectories(s, root, items))
  {
    hide Listed, Subdirectories, Find, LastFirst;
    var subs := Subdirectories(s, root, Find(s.fs, root, pattern));
    FromStackLastFirst(s, subs);
    assert Popped(s, [root], pattern) == [] + subs == subs;
  }

  // ---------------------------------------------------------- level by level

  /** Nothing comes before something less deep. */
  predicate ByLevels(found: seq<Found>) {
    forall i, j :: 0 <= i < j < |found| ==> |found[i].path| <= |found[j].path|
  }

  /** Nothing below the directory second lies deeper than anything below first. */
  ghost predicate NoDeeper(s: Search, first: Path, second: Path) {
    forall f, g :: Belongs(s, first, "", f) && Belongs(s, second, "", g) ==> |g.path| <= |f.path|
  }

  ghost predicate NoneDeeper(s: Search, dirs: seq<Path>) {
    forall i, j :: 0 <= i < j < |dirs| ==> NoDeeper(s, dirs[i], dirs[j])
  }

  /**
   * The trees in which the stack does no harm: wherever there are several
   * subdirectories, nothing below a later one lies deeper than anything below
   * an earlier one.
   */
  ghost predicate Levelled(s: Search, dir: Path, pattern: string)
    requires s.Valid()
    decreases WeightAt(s.fs, dir)
  {
    var subs := Subdirectories(s, dir, Find(s.fs, dir, pattern));
    SubdirectoriesLighter(s, dir, pattern);
    NoneDeeper(s, subs) && forall d <- subs :: Levelled(s, d, "")
  }

  lemma SubdirectoriesLighter(s: Search, dir: Path, pattern: string)
    requires s.Valid()
    ensures forall d <- Subdirectories(s, dir, Find(s.fs, dir, pattern)) :: WeightAt(s.fs, d) < WeightAt(s.fs, dir)
  {
    hide Subdirectories, Find, WeightAt;
    var items := Find(s.fs, dir, pattern);
    var subs := Subdirectories(s, dir, items);
    FindReports(s.fs, dir, pattern);
    SubdirectoriesWeight(s, dir, items);
    FindWeight(s.fs, dir, pattern);
    forall d <- subs ensures WeightAt(s.fs, d) <= StackWeight(s.fs, subs) {
      InStack(s.fs, subs, d);
    }
  }

  lemma InStack(fs: FileSystem, stack: seq<Path>, path: Path)
    requires path in stack
    ensures WeightAt(fs, path) <= StackWeight(fs, stack)
  {
    var k :| 0 <= k < |stack| && stack[k] == path;
    TotalAtLeast(PathWeight(fs), stack, k);
  }

  lemma ByLevelsConcat(a: seq<Found>, b: seq<Found>)
    ensures ByLevels(a + b) <==>
            ByLevels(a) && ByLevels(b) && forall f, g :: f in a && g in b ==> |f.path| <= |g.path|
  {
    var c := a + b;
    if ByLevels(c) {
      assert forall i :: 0 <= i < |a| ==> c[i] == a[i];
      assert forall i :: 0 <= i < |b| ==> c[|a| + i] == b[i];
    }
  }

  lemma {:induction false} LastFirstHas(s: Search, dirs: seq<Path>, f: Found)
    requires s.Valid()
    ensures f in LastFirst(s, dirs) <==> exists i :: 0 <= i < |dirs| && Belongs(s, dirs[i], "", f)
  {
    hide Belongs, Enumeration;
    if dirs == [] {
    } else {
      LastFirstHas(s, dirs[1..], f);
      EnumerationExact(s, dirs[0], "", f);
      if i :| 0 <= i < |dirs| && Belongs(s, dirs[i], "", f) {
        if i > 0 { assert dirs[1..][i - 1] == dirs[i]; }
      }
    }
  }

  lemma {:induction false} LastFirstByLevels(s: Search, dirs: seq<Path>)
    requires s.Valid()
    ensures ByLevels(LastFirst(s, dirs)) <==>
            NoneDeeper(s, dirs) && forall d <- dirs :: ByLevels(Enumeration(s, d, ""))
  {
    hide Belongs, Enumeration, ByLevels, NoDeeper;
    if dirs == [] {
      assert ByLevels([]) by { NothingByLevels(); }
    } else {
      var rest := dirs[1..];
      LastFirstByLevels(s, rest);
      ByLevelsConcat(LastFirst(s, rest), Enumeration(s, dirs[0], ""));
      FirstDeeper(s, dirs[0], rest);
      assert [dirs[0]] + rest == dirs;
      NoneDeeperCons(s, dirs[0], rest);
      assert forall d :: d in dirs <==> d == dirs[0] || d in rest;
    }
  }

  lemma NothingByLevels()
    ensures ByLevels([])
  {}

  lemma NoneDeeperCons(s: Search, dir: Path, rest: seq<Path>)
    ensures NoneDeeper(s, [dir] + rest) <==>
            NoneDeeper(s, rest) && forall j :: 0 <= j < |rest| ==> NoDeeper(s, dir, rest[j])
  {
    hide NoDeeper;
    var dirs := [dir] + rest;
    if NoneDeeper(s, dirs) {
      forall i, j | 0 <= i < j < |rest| ensures NoDeeper(s, rest[i], rest[j]) {
        assert rest[i] == dirs[i + 1] && rest[j] == dirs[j + 1];
      }
      forall j | 0 <= j < |rest| ensures NoDeeper(s, dir, rest[j]) {
        assert dirs[0] == dir && rest[j] == dirs[j + 1];
      }
    }
  }

  lemma FirstDeeper(s: Search, dir: Path, rest: seq<Path>)
    requires s.Valid()
    ensures (forall f, g :: f in LastFirst(s, rest) && g in Enumeration(s, dir, "") ==> |f.path| <= |g.path|) <==>
            forall j :: 0 <= j < |rest| ==> NoDeeper(s, dir, rest[j])
  {
    hide Belongs, Enumeration, LastFirst;
    forall f ensures f in LastFirst(s, rest) <==> exists i :: 0 <= i < |rest| && Belongs(s, rest[i], "", f) {
      LastFirstHas(s, rest, f);
    }
    forall g ensures g in Enumeration(s, dir, "") <==> Belongs(s, dir, "", g) {
      EnumerationExact(s, dir, "", g);
    }
  }

  /** The enumeration is breadth-first after all exactly in such trees. */
  lemma {:induction false} BreadthFirstIffLevelled(s: Search, root: Path, pattern: string)
    requires s.Valid()
    ensures ByLevels(Enumeration(s, root, pattern)) <==> Levelled(s, root, pattern)
    decreases WeightAt(s.fs, root)
  {
    hide Belongs, Enumeration, ByLevels, NoneDeeper, Listed, Subdirectories, Find, LastFirst, WeightAt;
    var items := Find(s.fs, root, pattern);
    var subs := Subdirectories(s, root, items);
    SubdirectoriesLighter(s, root, pattern);
    forall d <- subs ensures ByLevels(Enumeration(s, d, "")) <==> Levelled(s, d, "") {
      BreadthFirstIffLevelled(s, d, "");
    }
    EnumerationWalksTree(s, root, pattern);
    LastFirstByLevels(s, subs);
    ByLevelsConcat(Listed(s, root, items), LastFirst(s, subs));
    ListedShallow(s, root, items, pattern);
  }

  lemma ListedShallow(s: Search, dir: Path, items: seq<Entry>, pattern: string)
    requires s.Valid() && items == Find(s.fs, dir, pattern)
    ensures ByLevels(Listed(s, dir, items))
    ensures forall f, g :: f in Listed(s, dir, items) && g in LastFirst(s, Subdirectories(s, dir, items)) ==>
              |f.path| <= |g.path|
  {
    hide Belongs, Listed, LastFirst, Find, Subdirectories;
    forall f <- Listed(s, dir, items) ensures |f.path| == |dir| + 1 {
      ListedIsDirect(s, dir, pattern, f);
    }
    var subs := Subdirectories(s, dir, items);
    forall g <- LastFirst(s, subs) ensures |g.path| > |dir| + 1 {
      LastFirstHas(s, subs, g);
      var i :| 0 <= i < |subs| && Belongs(s, subs[i], "", g);
      SubdirectoryBelongs(s, dir, pattern, subs[i], g);
    }
  }

  // ---------------------------------------------------------- steps of Next

  /** What is still to come when a directory has been opened and items of it are left. */
  ghost function FromListing(s: Search, dir: Path, items: seq<Entry>, stack: seq<Path>): seq<Found>
    requires s.Valid()
  {
    Listed(s, dir, items) + FromStack(s, stack + Subdirectories(s, dir, items), "")
  }

  lemma OpenDirectory(s: Search, stack: seq<Path>, pattern: string)
    requires s.Valid() && stack != []
    ensures var top, below := stack[|stack| - 1], stack[..|stack| - 1];
            var items := Find(s.fs, top, pattern);
            && FromStack(s, stack, pattern) == FromListing(s, top, items, below)
            && (forall e <- items :: Reported(s.fs, top, e))
            && WeightOf(items) + StackWeight(s.fs, below) < StackWeight(s.fs, stack)
  {
    hide Find, Subdirectories, Listed, WeightOf, WeightAt;
    var top, below := stack[|stack| - 1], stack[..|stack| - 1];
    FindReports(s.fs, top, pattern);
    FindWeight(s.fs, top, pattern);
    StackWeightSnoc(s.fs, below, top);
    assert below + [top] == stack;
  }

  lemma CloseDirectory(s: Search, dir: Path, stack: seq<Path>)
    requires s.Valid()
    ensures FromListing(s, dir, [], stack) == FromStack(s, stack, "")
  {
    assert stack + [] == stack;
  }

  function PushEntry(s: Search, stack: seq<Path>, dir: Path, e: Entry): seq<Path> {
    if s.Pushes(e) then stack + [dir + [Name(e)]] else stack
  }

  lemma TakeEntry(s: Search, dir: Path, e: Entry, items: seq<Entry>, stack: seq<Path>)
    requires s.Valid()
    ensures var rest := FromListing(s, dir, items, PushEntry(s, stack, dir, e));
            FromListing(s, dir, [e] + items, stack)
            == if s.Returns(e) then [Found(dir + [Name(e)], Info(e))] + rest else rest
  {
    hide FromStack, Info, Search.Pushes, Search.Returns;
    var own := if s.Returns(e) then [Found(dir + [Name(e)], Info(e))] else [];
    var listed := Listed(s, dir, items);
    assert ([e] + items)[1..] == items;
    PushedStack(s, dir, e, items, stack);
    var left := FromStack(s, stack + Subdirectories(s, dir, [e] + items), "");
    assert Listed(s, dir, [e] + items) == own + listed;
    hide Listed, Subdirectories, PushEntry;
    assert (own + listed) + left == own + (listed + left);
    assert [] + (listed + left) == listed + left;
  }

  lemma PushedStack(s: Search, dir: Path, e: Entry, items: seq<Entry>, stack: seq<Path>)
    ensures stack + Subdirectories(s, dir, [e] + items)
         == PushEntry(s, stack, dir, e) + Subdirectories(s, dir, items)
  {
    assert ([e] + items)[1..] == items;
  }

  lemma TakenWeight(s: Search, dir: Path, e: Entry, items: seq<Entry>, stack: seq<Path>)
    requires s.Valid() && Reported(s.fs, dir, e)
    ensures WeightOf(items) + StackWeight(s.fs, PushEntry(s, stack, dir, e))
          < WeightOf([e] + items) + StackWeight(s.fs, stack)
  {
    hide WeightAt, StackWeight, Reported;
    assert ([e] + items)[1..] == items;
    var more := if s.Pushes(e) then [dir + [Name(e)]] else [];
    assert PushEntry(s, stack, dir, e) == stack + more;
    StackWeightConcat(s.fs, stack, more);
    PushedWeight(s, dir, e);
  }

  lemma PushedWeight(s: Search, dir: Path, e: Entry)
    requires s.Valid() && Reported(s.fs, dir, e)
    ensures StackWeight(s.fs, if s.Pushes(e) then [dir + [Name(e)]] else []) <= if e.Child? then Weight(e.node) else 0
  {
    TotalOne(PathWeight(s.fs), dir + [Name(e)]);
  }

  // -------------------------------------------------------------------- sizes

  function FileSize(info: FindData): nat {
    info.sizeHigh * DWORD + info.sizeLow
  }

  function SumOfSizes(found: seq<Found>): nat {
    TotalNonNegative(FoundSize, found);
    Total(FoundSize, found)
  }

  function FoundSize(found: Found): int { FileSize(found.info) }

  function PathTotal(fs: FileSystem): Path -> int { (path: Path) => TotalAt(fs, path) }

  function StackTotal(fs: FileSystem, stack: seq<Path>): nat {
    TotalNonNegative(PathTotal(fs), stack);
    Total(PathTotal(fs), stack)
  }

  lemma SumConcat(a: seq<Found>, b: seq<Found>)
    ensures SumOfSizes(a + b) == SumOfSizes(a) + SumOfSizes(b)
  {
    TotalConcat(FoundSize, a, b);
  }

  lemma StackTotalConcat(fs: FileSystem, a: seq<Path>, b: seq<Path>)
    ensures StackTotal(fs, a + b) == StackTotal(fs, a) + StackTotal(fs, b)
  {
    TotalConcat(PathTotal(fs), a, b);
  }

  /** What ComputeDirectorySize enumerates. */
  function AllFiles(fs: FileSystem): Search {
    Search(fs, true, FILES)
  }

  lemma {:induction false} EntriesTotal(fs: FileSystem, dir: Path, items: seq<Entry>)
    requires WellFormed(fs.root) && forall e <- items :: Reported(fs, dir, e)
    ensures SumOfSizes(Listed(AllFiles(fs), dir, items)) + StackTotal(fs, Subdirectories(AllFiles(fs), dir, items))
         == TotalOf(items)
  {
    hide Lookup, Info;
    if items == [] {
    } else {
      var s, e := AllFiles(fs), items[0];
      var found, subs := Listed(s, dir, items[1..]), Subdirectories(s, dir, items[1..]);
      EntriesTotal(fs, dir, items[1..]);
      assert Reported(fs, dir, e);
      var own := Found(dir + [Name(e)], Info(e));
      if s.Returns(e) {
        assert ([own] + found)[1..] == found;
      } else {
        assert [] + found == found;
      }
      if s.Pushes(e) {
        assert ([own.path] + subs)[1..] == subs;
      } else {
        assert [] + subs == subs;
      }
      EntryTotal(fs, dir, e);
    }
  }

  lemma EntryTotal(fs: FileSystem, dir: Path, e: Entry)
    requires WellFormed(fs.root) && Reported(fs, dir, e)
    ensures var s := AllFiles(fs);
            && !(s.Returns(e) && s.Pushes(e))
            && (s.Returns(e) ==> e.Child? && FileSize(Info(e)) == TotalSize(e.node))
            && (s.Pushes(e) ==> e.Child? && TotalAt(fs, dir + [Name(e)]) == TotalSize(e.node))
            && (e.Child? ==> s.Returns(e) || s.Pushes(e))
  {
  }

  /** Looking into the top directory gives its total or leaves it on the stack. */
  lemma PoppedTotal(fs: FileSystem, stack: seq<Path>)
    requires WellFormed(fs.root) && stack != []
    ensures var s, top := AllFiles(fs), stack[|stack| - 1];
            SumOfSizes(Listed(s, top, Find(fs, top, ""))) + StackTotal(fs, Popped(s, stack, ""))
            == StackTotal(fs, stack)
  {
    hide Listed, Subdirectories, Matching, ListingAt, TotalOf, SumOfSizes, StackTotal, WellFormed, Reported;
    var s := AllFiles(fs);
    var top, below := stack[|stack| - 1], stack[..|stack| - 1];
    var items := Find(fs, top, "");
    FindReports(fs, top, "");
    EntriesTotal(fs, top, items);
    MatchingEverything(fs, ListingAt(fs, top));
    StackTotalConcat(fs, below, Subdirectories(s, top, items));
    StackTotalSnoc(fs, below, top);
    assert below + [top] == stack;
  }

  lemma StackTotalSnoc(fs: FileSystem, below: seq<Path>, top: Path)
    ensures StackTotal(fs, below + [top]) == StackTotal(fs, below) + TotalAt(fs, top)
  {
    TotalSnoc(PathTotal(fs), below, top);
  }

  lemma {:induction false} FromStackTotal(fs: FileSystem, stack: seq<Path>)
    requires WellFormed(fs.root)
    ensures AllFiles(fs).Valid()
    ensures SumOfSizes(FromStack(AllFiles(fs), stack, "")) == StackTotal(fs, stack)
    decreases StackWeight(fs, stack)
  {
    hide Listed, StackWeight, Find, Popped, TotalAt, WellFormed;
    var s := AllFiles(fs);
    AllFilesValid(fs);
    if stack == [] {
    } else {
      var popped := Popped(s, stack, "");
      PoppedWeight(s, stack, "");
      FromStackTotal(fs, popped);
      PoppedTotal(fs, stack);
      SumConcat(Listed(s, stack[|stack| - 1], Find(fs, stack[|stack| - 1], "")), FromStack(s, popped, ""));
    }
  }

  lemma AllFilesValid(fs: FileSystem)
    requires WellFormed(fs.root)
    ensures AllFiles(fs).Valid()
  {
  }

  /** Whatever the shape of the tree, the files found have the size of the tree between them. */
  lemma EnumerationTotal(fs: FileSystem, root: Path)
    requires WellFormed(fs.root)
    ensures AllFiles(fs).Valid()
    ensures SumOfSizes(Enumeration(AllFiles(fs), root, "")) == TotalAt(fs, root)
  {
    hide FromStack, SumOfSizes, TotalAt;
    FromStackTotal(fs, [root]);
    TotalOne(PathTotal(fs), root);
  }

  /**
   * The order is not breadth-first: in a tree of a/x and b/y/z, the enumeration
   * goes down to z before it looks into a.
   */
  function Branching(): FileSystem {
    var leaf := Directory([]);
    var y := Directory([Child("z", leaf)]);
    FileSystem(Directory([Child("a", Directory([Child("x", leaf)])), Child("b", Directory([Child("y", y)]))]),
               (pattern, name) => true)
  }

  lemma NotBreadthFirst()
    ensures var s := Search(Branching(), true, DIRECTORIES);
            s.Valid() &&
            exists i, j :: 0 <= i < j < |Enumeration(s, [], "")|
              && Enumeration(s, [], "")[i].path == ["b", "y", "z"] && Enumeration(s, [], "")[j].path == ["a", "x"]
  {
    hide Belongs, Branching, WellFormed, Enumeration, Subdirectories, Find;
    var s := Search(Branching(), true, DIRECTORIES);
    BranchingValid();
    BranchingDeep(s);
    BranchingShallow(s);
    BranchingSubdirectories(s);
    EnumerationExact(s, ["b"], "", Directories(["b", "y", "z"]));
    EnumerationExact(s, ["a"], "", Directories(["a", "x"]));
    LastTreeFirst(s, [], ["a"], ["b"], Directories(["b", "y", "z"]), Directories(["a", "x"]));
  }

  /** Of two subdirectories, the second is gone through before the first is looked into. */
  lemma LastTreeFirst(s: Search, root: Path, first: Path, second: Path, f: Found, g: Found)
    requires s.Valid() && Subdirectories(s, root, Find(s.fs, root, "")) == [first, second]
    requires f in Enumeration(s, second, "") && g in Enumeration(s, first, "")
    ensures exists i, j :: 0 <= i < j < |Enumeration(s, root, "")|
              && Enumeration(s, root, "")[i] == f && Enumeration(s, root, "")[j] == g
  {
    hide Enumeration, Subdirectories, Find, Listed, WellFormed;
    var a, b := Enumeration(s, first, ""), Enumeration(s, second, "");
    EnumerationWalksTree(s, root, "");
    TwoLastFirst(s, first, second);
    hide LastFirst;
    FoundInTurn(Listed(s, root, Find(s.fs, root, "")), b, a, f, g);
  }

  lemma TwoLastFirst(s: Search, first: Path, second: Path)
    requires s.Valid()
    ensures LastFirst(s, [first, second]) == Enumeration(s, second, "") + Enumeration(s, first, "")
  {
    hide Enumeration, Search.Valid;
    var dirs := [first, second];
    assert dirs[1..] == [second] && dirs[1..][1..] == [];
    assert [] + Enumeration(s, second, "") == Enumeration(s, second, "");
    assert LastFirst(s, [second]) == Enumeration(s, second, "");
  }

  lemma FoundInTurn(own: seq<Found>, b: seq<Found>, a: seq<Found>, f: Found, g: Found)
    requires f in b && g in a
    ensures var all := own + (b + a);
            exists i, j :: 0 <= i < j < |all| && all[i] == f && all[j] == g
  {
    var i :| 0 <= i < |b| && b[i] == f;
    var j :| 0 <= j < |a| && a[j] == g;
    var all := own + (b + a);
    assert all[|own| + i] == f && all[|own| + |b| + j] == g;
  }

  function Directories(path: Path): Found
    requires path != []
  {
    Found(path, InfoAt(path, Directory([])))
  }

  lemma PushBoth(s: Search, first: Entry, second: Entry)
    requires s.Pushes(first) && s.Pushes(second)
    ensures Subdirectories(s, [], [first, second]) == [[Name(first)], [Name(second)]]
  {
    var both := [first, second];
    assert both[1..] == [second] && both[1..][1..] == [];
    assert Subdirectories(s, [], []) == [];
    assert [] + [Name(first)] == [Name(first)] && [] + [Name(second)] == [Name(second)];
    assert Subdirectories(s, [], [second]) == [[Name(second)]];
  }

  lemma BranchingSubdirectories(s: Search)
    requires s == Search(Branching(), true, DIRECTORIES)
    ensures Subdirectories(s, [], Find(s.fs, [], "")) == [["a"], ["b"]]
  {
    hide Subdirectories, Matching;
    var listing := ListingAt(s.fs, []);
    MatchingEverything(s.fs, listing);
    assert listing == [listing[0], listing[1]];
    PushBoth(s, listing[0], listing[1]);
  }

  lemma BranchingValid()
    ensures WellFormed(Branching().root)
  {
  }

  lemma BranchingDeep(s: Search)
    requires s == Search(Branching(), true, DIRECTORIES)
    ensures Belongs(s, ["b"], "", Directories(["b", "y", "z"]))
  {}

  lemma BranchingShallow(s: Search)
    requires s == Search(Branching(), true, DIRECTORIES)
    ensures Belongs(s, ["a"], "", Directories(["a", "x"]))
  {}
}
