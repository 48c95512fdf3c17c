/**
 * The file system that an enumeration looks at: a finite tree that does not
 * change meanwhile, with the find calls as functions of it.
 */
module FileTree {

  datatype Option<T> = None | Some(value: T)

  /** A directory lists itself and its parent beside its children, in an order of its own. */
  datatype Entry = Self | Parent | Child(child: string, node: Node)

  datatype Node = File(size: nat) | Directory(listing: seq<Entry>)

  /** matches is the system's own pattern matching, of which nothing is known. */
  datatype FileSystem = FileSystem(root: Node, matches: (string, string) -> bool)

  /** A path is the sequence of names that leads to it from the root of the tree. */
  type Path = seq<string>

  /** What a find call reports of an entry. */
  datatype FindData = FindData(fileName: string, isDirectory: bool, sizeHigh: nat, sizeLow: nat)

  const DWORD: nat := 0x1_0000_0000

  function Name(e: Entry): string {
    match e
    case Self => "."
    case Parent => ".."
    case Child(name, _) => name
  }

  predicate IsDirectory(e: Entry) {
    e.Child? ==> e.node.Directory?
  }

  function Info(e: Entry): FindData {
    if e.Child? && e.node.File? then FindData(e.child, false, e.node.size / DWORD, e.node.size % DWORD)
    else FindData(Name(e), true, 0, 0)
  }

  /** The two halves of a size are 32 bits each. */
  lemma SizeHalves(name: string, size: nat)
    requires size < 0x1_0000_0000_0000_0000
    ensures var info := Info(Child(name, File(size)));
            && info.sizeHigh < 0x1_0000_0000 && info.sizeLow < 0x1_0000_0000
            && size == info.sizeHigh * 0x1_0000_0000 + info.sizeLow
  {}

  predicate ProperName(name: string) {
    name != "" && name != "." && name != ".."
  }

  ghost predicate WellFormed(node: Node) {
    match node
    case File(size) => size < DWORD * DWORD
    case Directory(listing) =>
      && (forall i, j :: 0 <= i < j < |listing| ==> Name(listing[i]) != Name(listing[j]))
      && (forall i :: 0 <= i < |listing| && listing[i].Child? ==>
            ProperName(listing[i].child) && WellFormed(listing[i].node))
  }

  function FindChild(listing: seq<Entry>, name: string): Option<Node> {
    if listing == [] then None
    else if listing[0].Child? && listing[0].child == name then Some(listing[0].node)
    else FindChild(listing[1..], name)
  }

  function Lookup(node: Node, path: Path): Option<Node>
    decreases |path|
  {
    if path == [] then Some(node)
    else if node.File? then None
    else
      match FindChild(node.listing, path[0])
      case None => None
      case Some(n) => Lookup(n, path[1..])
  }

  /** The listing of a path: nothing if it is missing or a file. */
  function ListingAt(fs: FileSystem, dir: Path): seq<Entry> {
    match Lookup(fs.root, dir)
    case Some(Directory(listing)) => listing
    case _ => []
  }

  predicate Matches(fs: FileSystem, pattern: string, name: string) {
    pattern == "" || fs.matches(pattern, name)
  }

  function Matching(fs: FileSystem, pattern: string, items: seq<Entry>): seq<Entry> {
    if items == [] then []
    else (if Matches(fs, pattern, Name(items[0])) then [items[0]] else []) + Matching(fs, pattern, items[1..])
  }

  /** What FindFirstFile and the FindNextFile calls after it report, in order. */
  function Find(fs: FileSystem, dir: Path, pattern: string): seq<Entry> {
    Matching(fs, pattern, ListingAt(fs, dir))
  }

  lemma {:induction false} FindChildOf(listing: seq<Entry>, name: string)
    ensures match FindChild(listing, name)
            case Some(n) => Child(name, n) in listing
            case None => forall n :: Child(name, n) !in listing
  {
    if listing == [] {
    } else {
      FindChildOf(listing[1..], name);
    }
  }

  lemma {:induction false} LookupWellFormed(node: Node, path: Path)
    requires WellFormed(node) && Lookup(node, path).Some?
    ensures WellFormed(Lookup(node, path).value)
    decreases |path|
  {
    if path == [] {
    } else {
      FindChildOf(node.listing, path[0]);
      var n := FindChild(node.listing, path[0]).value;
      LookupWellFormed(n, path[1..]);
    }
  }

  lemma {:induction false} LookupSnoc(node: Node, path: Path, name: string)
    ensures Lookup(node, path + [name]) ==
            match Lookup(node, path)
            case Some(Directory(listing)) => FindChild(listing, name)
            case _ => None
    decreases |path|
  {
    var whole := path + [name];
    if path == [] {
      assert whole == [name] && whole[1..] == [];
    } else {
      assert whole[0] == path[0] && whole[1..] == path[1..] + [name];
      if node.Directory? && FindChild(node.listing, path[0]).Some? {
        LookupSnoc(FindChild(node.listing, path[0]).value, path[1..], name);
      }
    }
  }

  /** An entry of a directory's listing is what lies at its path, and the other way round. */
  lemma ListedIsThere(fs: FileSystem, dir: Path, name: string, n: Node)
    requires WellFormed(fs.root)
    ensures Child(name, n) in ListingAt(fs, dir) <==> Lookup(fs.root, dir + [name]) == Some(n)
  {
    LookupSnoc(fs.root, dir, name);
    var listing := ListingAt(fs, dir);
    if Lookup(fs.root, dir).Some? {
      LookupWellFormed(fs.root, dir);
    }
    FindChildOf(listing, name);
    if Child(name, n) in listing {
    }
  }

  /** Nothing lies below a path that is not there. */
  lemma {:induction false} LookupPrefix(node: Node, path: Path, rest: Path)
    ensures Lookup(node, path + rest) ==
            match Lookup(node, path)
            case Some(n) => Lookup(n, rest)
            case None => None
    decreases |path|
  {
    if path == [] {
      assert path + rest == rest;
    } else {
      assert (path + rest)[0] == path[0] && (path + rest)[1..] == path[1..] + rest;
      if node.Directory? && FindChild(node.listing, path[0]).Some? {
        LookupPrefix(FindChild(node.listing, path[0]).value, path[1..], rest);
      }
    }
  }

  lemma {:induction false} MatchingIn(fs: FileSystem, pattern: string, items: seq<Entry>, e: Entry)
    ensures e in Matching(fs, pattern, items) <==> e in items && Matches(fs, pattern, Name(e))
  {
    if items == [] {
    } else {
      MatchingIn(fs, pattern, items[1..], e);
      assert items == [items[0]] + items[1..];
    }
  }

  predicate DistinctNames(items: seq<Entry>) {
    forall i, j :: 0 <= i < j < |items| ==> Name(items[i]) != Name(items[j])
  }

  lemma {:induction false} MatchingDistinct(fs: FileSystem, pattern: string, items: seq<Entry>)
    requires DistinctNames(items)
    ensures DistinctNames(Matching(fs, pattern, items))
  {
    if items == [] {
    } else {
      var rest := Matching(fs, pattern, items[1..]);
      MatchingDistinct(fs, pattern, items[1..]);
      forall j | 0 <= j < |rest| ensures Name(rest[j]) != Name(items[0]) {
        MatchingIn(fs, pattern, items[1..], rest[j]);
      }
    }
  }

  /** What a find reports is distinct and lies in the tree. */
  lemma FindReports(fs: FileSystem, dir: Path, pattern: string)
    requires WellFormed(fs.root)
    ensures DistinctNames(Find(fs, dir, pattern))
    ensures forall e <- Find(fs, dir, pattern) :: Reported(fs, dir, e)
  {
    var listing := ListingAt(fs, dir);
    if Lookup(fs.root, dir).Some? {
      LookupWellFormed(fs.root, dir);
    }
    assert DistinctNames(listing);
    MatchingDistinct(fs, pattern, listing);
    forall e <- Find(fs, dir, pattern) ensures Reported(fs, dir, e) {
      MatchingIn(fs, pattern, listing, e);
      if e.Child? {
        ListedIsThere(fs, dir, e.child, e.node);
      }
    }
  }

  predicate Reported(fs: FileSystem, dir: Path, e: Entry) {
    e.Child? ==> ProperName(e.child) && Lookup(fs.root, dir + [e.child]) == Some(e.node)
  }

  /** How much an enumeration has to do for a node, for a listing, and for a stack of paths. */
  function Weight(node: Node): nat {
    match node
    case File(_) => 1
    case Directory(listing) => 1 + WeightOf(listing)
  }

  function WeightOf(items: seq<Entry>): nat {
    if items == [] then 0
    else 1 + (if items[0].Child? then Weight(items[0].node) else 0) + WeightOf(items[1..])
  }

  function WeightAt(fs: FileSystem, path: Path): nat {
    match Lookup(fs.root, path)
    case Some(n) => Weight(n)
    case None => 1
  }

  lemma {:induction false} MatchingWeight(fs: FileSystem, pattern: string, items: seq<Entry>)
    ensures WeightOf(Matching(fs, pattern, items)) <= WeightOf(items)
  {
    if items == [] {
    } else {
      MatchingWeight(fs, pattern, items[1..]);
      var rest := Matching(fs, pattern, items[1..]);
      if Matches(fs, pattern, Name(items[0])) {
        var m := [items[0]] + rest;
        assert m[1..] == rest;
      } else {
        assert [] + rest == rest;
      }
    }
  }

  lemma FindWeight(fs: FileSystem, dir: Path, pattern: string)
    ensures WeightOf(Find(fs, dir, pattern)) < WeightAt(fs, dir)
  {
    MatchingWeight(fs, pattern, ListingAt(fs, dir));
  }

  /** The size of all files in a node. */
  function TotalSize(node: Node): nat {
    match node
    case File(size) => size
    case Directory(listing) => TotalOf(listing)
  }

  function TotalOf(items: seq<Entry>): nat {
    if items == [] then 0
    else (if items[0].Child? then TotalSize(items[0].node) else 0) + TotalOf(items[1..])
  }

  function TotalAt(fs: FileSystem, path: Path): nat {
    TotalOf(ListingAt(fs, path))
  }

  lemma {:induction false} MatchingEverything(fs: FileSystem, items: seq<Entry>)
    ensures Matching(fs, "", items) == items
  {
    if items == [] {
    } else {
      MatchingEverything(fs, items[1..]);
    }
  }
}
