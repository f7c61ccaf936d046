/**
  * The routes directory as the indexer walks it, and what the walk
  * registers: one `(key, module)` pair per file, keyed by the file's
  * `/`-joined path from the routes root, directories recursed into.
  */
module RouteFiles {
  import opened Wrappers
  import opened Paths
  import opened JsMap
  import opened Types

  /**
    * A directory entry as the walk yields it: a file, already loaded as a
    * module, or a sub-directory with its entries in the order they are read.
    */
  datatype Entry = File(name: string, loaded: Module) | Dir(name: string, children: seq<Entry>)

  /** The pairs the walk registers for the entries `dir` of the directory at key prefix `path`, in order. */
  function Listing(path: string, dir: seq<Entry>): Entries<Module>
    decreases dir
  {
    if dir == [] then []
    else Listing(path, dir[..|dir| - 1]) + EntryListing(path, dir[|dir| - 1])
  }

  /** The pairs registered for one entry: the file itself, or everything below the directory. */
  function EntryListing(path: string, e: Entry): Entries<Module>
    decreases e
  {
    match e
    case File(name, m) => [(path + "/" + name, m)]
    case Dir(name, children) => Listing(path + "/" + name, children)
  }

  /** Each path of `paths`, one level deeper below `name`. */
  function Under<T>(name: string, paths: seq<(seq<string>, T)>): (r: seq<(seq<string>, T)>)
    ensures |r| == |paths|
    ensures forall i :: 0 <= i < |r| ==> r[i] == ([name] + paths[i].0, paths[i].1)
  {
    seq(|paths|, i requires 0 <= i < |paths| => ([name] + paths[i].0, paths[i].1))
  }

  /** The files below `dir` as name paths, with their modules, in walk order. */
  function Files(dir: seq<Entry>): seq<(seq<string>, Module)>
    decreases dir
  {
    if dir == [] then []
    else Files(dir[..|dir| - 1]) + EntryFiles(dir[|dir| - 1])
  }

  function EntryFiles(e: Entry): seq<(seq<string>, Module)>
    decreases e
  {
    match e
    case File(name, m) => [([name], m)]
    case Dir(name, children) => Under(name, Files(children))
  }

  /** The directories below `dir` as name paths (the module is irrelevant and left as `()`). */
  function Dirs(dir: seq<Entry>): seq<(seq<string>, ())>
    decreases dir
  {
    if dir == [] then []
    else Dirs(dir[..|dir| - 1]) + EntryDirs(dir[|dir| - 1])
  }

  function EntryDirs(e: Entry): seq<(seq<string>, ())>
    decreases e
  {
    match e
    case File(_, _) => []
    case Dir(name, children) => [([name], ())] + Under(name, Dirs(children))
  }

  function Names(dir: seq<Entry>): set<string> {
    set i | 0 <= i < |dir| :: dir[i].name
  }

  /** What a filesystem guarantees: valid names, distinct within each directory. */
  predicate ValidTree(dir: seq<Entry>)
    decreases dir
  {
    forall i :: 0 <= i < |dir| ==>
      ValidName(dir[i].name) &&
      (forall j :: i < j < |dir| ==> dir[i].name != dir[j].name) &&
      (dir[i].Dir? ==> ValidTree(dir[i].children))
  }

  /** The key of every registered pair is its file's `/`-joined name path, appended to the directory's key. */
  lemma {:induction false} ListingIsKeyed(path: string, dir: seq<Entry>)
    ensures |Listing(path, dir)| == |Files(dir)|
    ensures forall i :: 0 <= i < |Files(dir)| ==>
      Listing(path, dir)[i] == (path + KeyOf(Files(dir)[i].0), Files(dir)[i].1)
    decreases dir
  {
    if dir != [] {
      var init, last := dir[..|dir| - 1], dir[|dir| - 1];
      ListingIsKeyed(path, init);
      match last {
        case File(n, m) =>
          assert [n][1..] == [];
          assert path + KeyOf([n]) == path + "/" + n;
        case Dir(n, cs) =>
          ListingIsKeyed(path + "/" + n, cs);
          forall j | 0 <= j < |Files(cs)|
            ensures path + "/" + n + KeyOf(Files(cs)[j].0) == path + KeyOf([n] + Files(cs)[j].0)
          {
            var p := Files(cs)[j].0;
            assert ([n] + p)[1..] == p;
          }
      }
    }
  }

  /** Every file or directory path is non-empty and starts with the name of an entry of `dir`. */
  lemma {:induction false} PathsStart(dir: seq<Entry>)
    ensures forall i :: 0 <= i < |Files(dir)| ==> |Files(dir)[i].0| >= 1 && Files(dir)[i].0[0] in Names(dir)
    ensures forall i :: 0 <= i < |Dirs(dir)| ==> |Dirs(dir)[i].0| >= 1 && Dirs(dir)[i].0[0] in Names(dir)
    decreases dir
  {
    if dir != [] {
      var init, last := dir[..|dir| - 1], dir[|dir| - 1];
      PathsStart(init);
      assert Names(init) <= Names(dir) by {
        forall x | x in Names(init) ensures x in Names(dir) {
          var i :| 0 <= i < |init| && init[i].name == x;
          assert dir[i] == init[i];
        }
      }
      assert last.name in Names(dir);
    }
  }

  /** Under a valid tree every file and directory path consists of valid names. */
  lemma {:induction false} PathsValid(dir: seq<Entry>)
    requires ValidTree(dir)
    ensures forall i :: 0 <= i < |Files(dir)| ==> ValidNames(Files(dir)[i].0)
    ensures forall i :: 0 <= i < |Dirs(dir)| ==> ValidNames(Dirs(dir)[i].0)
    decreases dir
  {
    if dir != [] {
      var init, last := dir[..|dir| - 1], dir[|dir| - 1];
      LastNameIsNew(dir);
      PathsValid(init);
      assert ValidName(last.name);
      if last.Dir? {
        PathsValid(last.children);
        var fs, ds := Files(last.children), Dirs(last.children);
        assert forall i :: 0 <= i < |fs| ==> ValidNames([last.name] + fs[i].0);
        assert forall i :: 0 <= i < |ds| ==> ValidNames([last.name] + ds[i].0);
        assert ValidNames([last.name]);
      }
    }
  }

  /** The entries of `init` do not share a name with the last entry of a valid directory. */
  lemma LastNameIsNew(dir: seq<Entry>)
    requires ValidTree(dir) && dir != []
    ensures dir[|dir| - 1].name !in Names(dir[..|dir| - 1])
    ensures ValidTree(dir[..|dir| - 1])
    ensures dir[|dir| - 1].Dir? ==> ValidTree(dir[|dir| - 1].children)
  {
    var init := dir[..|dir| - 1];
    assert forall i :: 0 <= i < |init| ==> init[i] == dir[i];
  }

  /** Under a valid tree no two files share a path. */
  lemma {:induction false} FilePathsDistinct(dir: seq<Entry>)
    requires ValidTree(dir)
    ensures forall i, j :: 0 <= i < j < |Files(dir)| ==> Files(dir)[i].0 != Files(dir)[j].0
    decreases dir
  {
    if dir != [] {
      var init, last := dir[..|dir| - 1], dir[|dir| - 1];
      LastNameIsNew(dir);
      FilePathsDistinct(init);
      PathsStart(init);
      var a, b := Files(init), EntryFiles(last);
      if last.Dir? {
        FilePathsDistinct(last.children);
        var fs := Files(last.children);
        forall i, j | 0 <= i < j < |b| ensures b[i].0 != b[j].0 {
          assert b[i].0[1..] == fs[i].0 && b[j].0[1..] == fs[j].0;
        }
      }
      forall i, j | 0 <= i < |a| && 0 <= j < |b| ensures a[i].0 != b[j].0 {
        assert b[j].0[0] == last.name;
      }
    }
  }

  /** Under a valid tree no file path is also a directory path. */
  lemma {:induction false} FileNeverDir(dir: seq<Entry>)
    requires ValidTree(dir)
    ensures forall i, j :: 0 <= i < |Files(dir)| && 0 <= j < |Dirs(dir)| ==> Files(dir)[i].0 != Dirs(dir)[j].0
    decreases dir
  {
    if dir != [] {
      var init, last := dir[..|dir| - 1], dir[|dir| - 1];
      LastNameIsNew(dir);
      FileNeverDir(init);
      PathsStart(init);
      var a, b := Files(init), EntryFiles(last);
      var c, d := Dirs(init), EntryDirs(last);
      forall i, j | 0 <= i < |a| && 0 <= j < |d| ensures a[i].0 != d[j].0 {
        assert d[j].0[0] == last.name;
      }
      forall i, j | 0 <= i < |b| && 0 <= j < |c| ensures b[i].0 != c[j].0 {
        assert b[i].0[0] == last.name;
      }
      if last.Dir? {
        var cs := last.children;
        FileNeverDir(cs);
        PathsStart(cs);
        forall i, j | 0 <= i < |b| && 0 <= j < |d| ensures b[i].0 != d[j].0 {
          assert b[i].0[1..] == Files(cs)[i].0;
          if j > 0 {
            assert d[j].0[1..] == Dirs(cs)[j - 1].0;
          }
        }
      }
    }
  }

  /** Keys built from valid name paths are equal only when the paths are. */
  lemma KeyOfInjective(p: seq<string>, q: seq<string>)
    requires ValidNames(p) && ValidNames(q) && KeyOf(p) == KeyOf(q)
    ensures p == q
  {
    SegmentsOfKey(p);
    SegmentsOfKey(q);
  }

  /**
    * Indexing a valid tree sets every key once, so the index is exactly the
    * walk's listing, in walk order.
    */
  lemma IndexIsListing(tree: seq<Entry>)
    requires ValidTree(tree)
    ensures UniqueKeys(Listing("", tree))
    ensures SetAll([], Listing("", tree)) == Listing("", tree)
  {
    var l, fs := Listing("", tree), Files(tree);
    ListingIsKeyed("", tree);
    PathsValid(tree);
    FilePathsDistinct(tree);
    forall i, j | 0 <= i < j < |l| ensures l[i].0 != l[j].0 {
      assert l[i].0 == "" + KeyOf(fs[i].0) == KeyOf(fs[i].0);
      assert l[j].0 == "" + KeyOf(fs[j].0) == KeyOf(fs[j].0);
      if l[i].0 == l[j].0 {
        KeyOfInjective(fs[i].0, fs[j].0);
      }
    }
    assert [] + l == l;
    SetAllFresh([], l);
  }

  /** Every file of a valid tree is registered under its `/`-joined path from the routes root, with its module. */
  lemma FileRegistered(tree: seq<Entry>, i: nat)
    requires ValidTree(tree) && i < |Files(tree)|
    ensures Get(SetAll([], Listing("", tree)), KeyOf(Files(tree)[i].0)) == Some(Files(tree)[i].1)
  {
    IndexIsListing(tree);
    ListingIsKeyed("", tree);
    var l := Listing("", tree);
    assert l[i].0 == "" + KeyOf(Files(tree)[i].0) == KeyOf(Files(tree)[i].0);
    GetAt(l, i);
  }

  /** Only files are registered: every key of the index is the path of a file. */
  lemma OnlyFilesRegistered(tree: seq<Entry>, k: string)
    requires ValidTree(tree) && HasKey(SetAll([], Listing("", tree)), k)
    ensures exists i :: 0 <= i < |Files(tree)| && k == KeyOf(Files(tree)[i].0)
  {
    IndexIsListing(tree);
    ListingIsKeyed("", tree);
    var l := Listing("", tree);
    var i :| 0 <= i < |l| && l[i].0 == k;
    assert l[i].0 == "" + KeyOf(Files(tree)[i].0);
  }

  /** Directories are recursed into and never registered themselves. */
  lemma DirNotRegistered(tree: seq<Entry>, j: nat)
    requires ValidTree(tree) && j < |Dirs(tree)|
    ensures !HasKey(SetAll([], Listing("", tree)), KeyOf(Dirs(tree)[j].0))
  {
    var d := Dirs(tree)[j].0;
    if HasKey(SetAll([], Listing("", tree)), KeyOf(d)) {
      OnlyFilesRegistered(tree, KeyOf(d));
      var i :| 0 <= i < |Files(tree)| && KeyOf(d) == KeyOf(Files(tree)[i].0);
      PathsValid(tree);
      KeyOfInjective(d, Files(tree)[i].0);
      FileNeverDir(tree);
      assert false;
    }
  }
}
