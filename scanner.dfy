/** The folder scan at the start of `EncryptFiles`/`DecryptFiles`: the root's
    subfolders and files are listed, then a list of subfolders is walked by
    index while it grows, each visited folder appending its own subfolders
    and files. The file system's folders are a map from path to what
    `Directory.GetDirectories` and `Directory.GetFiles` return for it. */
module Scanner {
  import opened FileRewrite

  /** The subfolders and the files of one folder, as full paths, in the
      order the listing calls return them. */
  datatype Listing = Listing(subdirs: seq<Path>, files: seq<Path>)

  type DirectoryMap = map<Path, Listing>

  /** What a file system guarantees about its folders: every listed
      subfolder exists and has a longer path than its parent (it is the
      parent's path plus a name), and no folder is listed twice, whether
      under one parent or under two. */
  ghost predicate FileTree(tree: DirectoryMap)
  {
    (forall d, k :: d in tree && 0 <= k < |tree[d].subdirs| ==>
       tree[d].subdirs[k] in tree && |tree[d].subdirs[k]| > |d|)
    && (forall d1, k1, d2, k2 ::
          (d1 in tree && d2 in tree && 0 <= k1 < |tree[d1].subdirs| && 0 <= k2 < |tree[d2].subdirs|
           && tree[d1].subdirs[k1] == tree[d2].subdirs[k2]) ==> d1 == d2 && k1 == k2)
  }

  predicate AllIn(tree: DirectoryMap, ds: seq<Path>)
  {
    forall k :: 0 <= k < |ds| ==> ds[k] in tree
  }

  predicate NoDup(ds: seq<Path>)
  {
    forall i, j :: 0 <= i < j < |ds| ==> ds[i] != ds[j]
  }

  /** The subfolders of the folders `ds`, folder after folder. */
  function ChildrenOf(tree: DirectoryMap, ds: seq<Path>): seq<Path>
    requires AllIn(tree, ds)
  {
    if ds == [] then [] else ChildrenOf(tree, ds[..|ds| - 1]) + tree[ds[|ds| - 1]].subdirs
  }

  /** The files of the folders `ds`, folder after folder. */
  function FilesOf(tree: DirectoryMap, ds: seq<Path>): seq<Path>
    requires AllIn(tree, ds)
  {
    if ds == [] then [] else FilesOf(tree, ds[..|ds| - 1]) + tree[ds[|ds| - 1]].files
  }

  /** Every folder `ChildrenOf` lists is a subfolder of one of `ds`. */
  lemma {:induction false} ChildrenOfParent(tree: DirectoryMap, ds: seq<Path>, m: nat)
    requires AllIn(tree, ds) && m < |ChildrenOf(tree, ds)|
    ensures exists j, k :: 0 <= j < |ds| && 0 <= k < |tree[ds[j]].subdirs|
                           && ChildrenOf(tree, ds)[m] == tree[ds[j]].subdirs[k]
    decreases |ds|
  {
    var front := ds[..|ds| - 1];
    var last := |ds| - 1;
    assert AllIn(tree, front);
    if m < |ChildrenOf(tree, front)| {
      ChildrenOfParent(tree, front, m);
      var j, k :| 0 <= j < |front| && 0 <= k < |tree[front[j]].subdirs|
                  && ChildrenOf(tree, front)[m] == tree[front[j]].subdirs[k];
      assert ds[j] == front[j];
    } else {
      var k := m - |ChildrenOf(tree, front)|;
      assert ChildrenOf(tree, ds)[m] == tree[ds[last]].subdirs[k];
    }
  }

  /** Every subfolder of one of `ds` is listed by `ChildrenOf`. */
  lemma {:induction false} ChildrenOfContains(tree: DirectoryMap, ds: seq<Path>, j: nat, k: nat)
    requires AllIn(tree, ds) && j < |ds| && k < |tree[ds[j]].subdirs|
    ensures tree[ds[j]].subdirs[k] in ChildrenOf(tree, ds)
    decreases |ds|
  {
    var front := ds[..|ds| - 1];
    assert AllIn(tree, front);
    if j < |front| {
      ChildrenOfContains(tree, front, j, k);
      assert front[j] == ds[j];
    } else {
      assert ChildrenOf(tree, ds) == ChildrenOf(tree, front) + tree[ds[j]].subdirs;
    }
  }

  /** A list without repetitions drawn from a set is no longer than the set. */
  lemma {:induction false} NoDupBounded(s: seq<Path>, keys: set<Path>)
    requires NoDup(s) && forall k :: 0 <= k < |s| ==> s[k] in keys
    ensures |s| <= |keys|
    decreases |s|
  {
    if s != [] {
      var rest := s[1..];
      forall k | 0 <= k < |rest|
        ensures rest[k] in keys - {s[0]}
      {
        assert rest[k] == s[k + 1];
      }
      NoDupBounded(rest, keys - {s[0]});
    }
  }

  /** The state of the scan before the step that visits `sub[i]`: the
      folders found are exactly the subfolders of the root and of the first
      `i` folders found, none twice and none the root. */
  ghost predicate Scanning(tree: DirectoryMap, root: Path, sub: seq<Path>, i: nat)
  {
    root in tree && AllIn(tree, sub) && i <= |sub|
    && NoDup([root] + sub)
    && (forall k :: 0 <= k < |sub| ==> |sub[k]| > |root|)
    && AllIn(tree, ([root] + sub)[..i + 1])
    && sub == ChildrenOf(tree, ([root] + sub)[..i + 1])
  }

  /** A folder's own listing names no folder twice and never the folder. */
  lemma ListingNoDup(tree: DirectoryMap, root: Path)
    requires FileTree(tree) && root in tree
    ensures NoDup([root] + tree[root].subdirs)
  {
    var sub := tree[root].subdirs;
    forall i, j | 0 <= i < j < |[root] + sub|
      ensures ([root] + sub)[i] != ([root] + sub)[j]
    {
      assert ([root] + sub)[j] == sub[j - 1];
      assert |sub[j - 1]| > |root|;
      if i > 0 {
        assert ([root] + sub)[i] == sub[i - 1];
      }
    }
  }

  /** After listing the root, the scan is in its first state. */
  lemma ScanStart(tree: DirectoryMap, root: Path)
    requires FileTree(tree) && root in tree
    ensures Scanning(tree, root, tree[root].subdirs, 0)
  {
    var sub := tree[root].subdirs;
    ListingNoDup(tree, root);
    assert ([root] + sub)[..1] == [root];
    assert [root][..0] == [];
    assert ChildrenOf(tree, [root]) == sub;
  }

  /** Visiting `sub[i]` keeps the scan state, and the list of folders found
      so far is shorter than the whole map. */
  lemma ScanStep(tree: DirectoryMap, root: Path, sub: seq<Path>, i: nat)
    requires FileTree(tree) && Scanning(tree, root, sub, i) && i < |sub|
    ensures |sub| < |tree|
    ensures ([root] + sub + tree[sub[i]].subdirs)[..i + 2] == ([root] + sub)[..i + 1] + [sub[i]]
    ensures Scanning(tree, root, sub + tree[sub[i]].subdirs, i + 1)
  {
    var queue := [root] + sub;
    NoDupBounded(queue, tree.Keys);
    var children := tree[sub[i]].subdirs;
    var sub' := sub + children;
    var queue' := [root] + sub';
    assert queue' == queue + children;
    assert queue'[..i + 2] == queue[..i + 1] + [sub[i]];
    var front := queue'[..i + 2];
    assert front[..|front| - 1] == queue[..i + 1];
    assert ChildrenOf(tree, front) == sub';
    forall a, b | 0 <= a < b < |queue'|
      ensures queue'[a] != queue'[b]
    {
      if b >= |queue| {
        var kb := b - |queue|;
        assert queue'[b] == children[kb];
        assert |children[kb]| > |sub[i]| > |root|;
        if a == 0 {
        } else if a < |queue| {
          var m := a - 1;
          assert sub[m] == queue'[a];
          ChildrenOfParent(tree, queue[..i + 1], m);
          var j, k :| 0 <= j < |queue[..i + 1]| && 0 <= k < |tree[queue[..i + 1][j]].subdirs|
                      && sub[m] == tree[queue[..i + 1][j]].subdirs[k];
          assert queue[..i + 1][j] == queue[j] != queue[i + 1] == sub[i];
        } else {
          assert queue'[a] == children[a - |queue|];
        }
      } else {
        assert queue'[a] == queue[a] && queue'[b] == queue[b];
      }
    }
  }

  /** The subfolders found by a scan that is in state `(sub, i)`. */
  function ScanFrom(tree: DirectoryMap, root: Path, sub: seq<Path>, i: nat): (found: seq<Path>)
    requires FileTree(tree) && Scanning(tree, root, sub, i)
    ensures Scanning(tree, root, found, |found|)
    decreases |tree| - i
  {
    if i == |sub| then sub
    else
      ScanStep(tree, root, sub, i);
      ScanFrom(tree, root, sub + tree[sub[i]].subdirs, i + 1)
  }

  /** The subfolders the scan finds under `root`: each once, never the
      root, and exactly the subfolders of the root and of the folders
      found, in the order they are visited, which is breadth-first. */
  function Scan(tree: DirectoryMap, root: Path): (sub: seq<Path>)
    requires FileTree(tree) && root in tree
    ensures NoDup([root] + sub) && AllIn(tree, [root] + sub)
    ensures sub == ChildrenOf(tree, [root] + sub)
  {
    ScanStart(tree, root);
    var found := ScanFrom(tree, root, tree[root].subdirs, 0);
    assert ([root] + found)[..|found| + 1] == [root] + found;
    found
  }

  /** The files the scan collects under `root`. */
  function ScannedFiles(tree: DirectoryMap, root: Path): seq<Path>
    requires FileTree(tree) && root in tree
  {
    FilesOf(tree, [root] + Scan(tree, root))
  }

  /** The scan is closed under subfolders and finds nothing else: every
      subfolder of the root or of a folder found is found, and every folder
      found is a subfolder of the root or of a folder found. */
  lemma ScanClosed(tree: DirectoryMap, root: Path)
    requires FileTree(tree) && root in tree
    ensures var queue := [root] + Scan(tree, root);
      forall j, k :: 0 <= j < |queue| && 0 <= k < |tree[queue[j]].subdirs| ==>
        tree[queue[j]].subdirs[k] in Scan(tree, root)
    ensures var queue := [root] + Scan(tree, root);
      forall m :: 0 <= m < |Scan(tree, root)| ==>
        exists j, k :: 0 <= j < |queue| && 0 <= k < |tree[queue[j]].subdirs|
                       && Scan(tree, root)[m] == tree[queue[j]].subdirs[k]
  {
    var sub := Scan(tree, root);
    var queue := [root] + sub;
    forall j, k | 0 <= j < |queue| && 0 <= k < |tree[queue[j]].subdirs|
      ensures tree[queue[j]].subdirs[k] in sub
    {
      ChildrenOfContains(tree, queue, j, k);
    }
    forall m | 0 <= m < |sub|
      ensures exists j, k :: 0 <= j < |queue| && 0 <= k < |tree[queue[j]].subdirs|
                             && sub[m] == tree[queue[j]].subdirs[k]
    {
      ChildrenOfParent(tree, queue, m);
    }
  }

  /** The loop state of `ScanFolder` before it visits `sub[i]`. */
  ghost predicate ScanLoop(tree: DirectoryMap, root: Path, sub: seq<Path>, files: seq<Path>, i: nat)
  {
    FileTree(tree) && Scanning(tree, root, sub, i)
    && ScanFrom(tree, root, sub, i) == Scan(tree, root)
    && files == FilesOf(tree, ([root] + sub)[..i + 1])
  }

  /** Listing the root puts the loop in its first state. */
  lemma ScanLoopStart(tree: DirectoryMap, root: Path)
    requires FileTree(tree) && root in tree
    ensures ScanLoop(tree, root, tree[root].subdirs, tree[root].files, 0)
  {
    ScanStart(tree, root);
    assert ([root] + tree[root].subdirs)[..1] == [root];
    assert [root][..0] == [];
  }

  /** Once the index reaches the end of the list, the list is the scan. */
  lemma ScanLoopDone(tree: DirectoryMap, root: Path, sub: seq<Path>, files: seq<Path>)
    requires ScanLoop(tree, root, sub, files, |sub|)
    ensures sub == Scan(tree, root) && files == FilesOf(tree, [root] + sub)
  {
    assert ([root] + sub)[..|sub| + 1] == [root] + sub;
  }

  /** Visiting `sub[i]` keeps the loop state. */
  lemma ScanLoopStep(tree: DirectoryMap, root: Path, sub: seq<Path>, files: seq<Path>, i: nat)
    requires ScanLoop(tree, root, sub, files, i) && i < |sub|
    ensures |sub| < |tree|
    ensures ScanLoop(tree, root, sub + tree[sub[i]].subdirs, files + tree[sub[i]].files, i + 1)
  {
    var visited := ([root] + sub)[..i + 1];
    ScanStep(tree, root, sub, i);
    var sub' := sub + tree[sub[i]].subdirs;
    assert ([root] + sub')[..i + 2] == visited + [sub[i]];
    assert (visited + [sub[i]])[..|visited|] == visited;
  }

  /** The scan loop: `_subFolders` and `_files` start with the root's
      listing, and the folder at index `i` is listed while `i` is below the
      list's current length. */
  method ScanFolder(tree: DirectoryMap, root: Path) returns (subFolders: seq<Path>, files: seq<Path>)
    requires FileTree(tree) && root in tree
    ensures subFolders == Scan(tree, root)
    ensures files == FilesOf(tree, [root] + subFolders)
  {
    subFolders := tree[root].subdirs;
    files := tree[root].files;
    ScanLoopStart(tree, root);
    var i := 0;
    while i < |subFolders|
      invariant ScanLoop(tree, root, subFolders, files, i)
      decreases |tree| - i
    {
      ScanLoopStep(tree, root, subFolders, files, i);
      var listing := tree[subFolders[i]];
      subFolders := subFolders + listing.subdirs;
      files := files + listing.files;
      i := i + 1;
    }
    ScanLoopDone(tree, root, subFolders, files);
  }
}
