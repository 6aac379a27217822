/**
 * 2022 day 7, "No Space Left On Device": a terminal session of `cd`, `ls` and their
 * listings rebuilds a directory tree, each directory's size is kept as the total size
 * of the files below it, and the answer sums the sizes of the directories of at most
 * 100000.
 *
 * The directories are objects that point to their parent and to their children. The
 * model keeps them in one sequence, the arena, and a pointer is an index into it. A
 * directory only ever gets children appended after it, so every parent sits before its
 * children in the arena.
 */
module NoSpaceLeft {
  import opened Common
  import opened Text

  /** An `Arquivo`: a file's name and size. A name the line lacks is `undefined`, here `None`. */
  datatype File = File(name: Option<string>, size: nat)

  /** A `Directory`, its `parent` and `directories` pointers being arena indices. */
  datatype Directory = Directory(
    name: Option<string>,
    parent: Option<nat>,
    files: seq<File>,
    directories: seq<nat>,
    size: nat)

  /** The two fields of the `Cursor` and the arena they point into; `null` is `None`. */
  datatype State = State(root: Option<nat>, current: Option<nat>, dirs: seq<Directory>)

  /** The largest size the final traversal keeps. */
  const SmallLimit: nat := 100000

  // ---------------------------------------------------------------------------------
  // The shape of the arena

  /** The parent pointer of every directory. */
  function Parents(dirs: seq<Directory>): (ps: seq<Option<nat>>)
    ensures |ps| == |dirs|
    ensures forall i :: 0 <= i < |dirs| ==> ps[i] == dirs[i].parent
  {
    seq(|dirs|, i requires 0 <= i < |dirs| => dirs[i].parent)
  }

  /** The total size of a list of files. */
  function FileTotal(files: seq<File>): nat
  {
    if files == [] then 0 else FileTotal(files[..|files| - 1]) + files[|files| - 1].size
  }

  /** The total size of the files held directly by each directory. */
  function Totals(dirs: seq<Directory>): (t: seq<nat>)
    ensures |t| == |dirs|
    ensures forall i :: 0 <= i < |dirs| ==> t[i] == FileTotal(dirs[i].files)
  {
    seq(|dirs|, i requires 0 <= i < |dirs| => FileTotal(dirs[i].files))
  }

  /** Only the first directory, the root, has no parent, and every parent comes before its child. */
  predicate Linked(ps: seq<Option<nat>>)
  {
    forall i :: 0 <= i < |ps| ==> (ps[i].None? <==> i == 0) && (ps[i].Some? ==> ps[i].value < i)
  }

  /** Directory `a` is `d` or one of its ancestors. */
  predicate Above(ps: seq<Option<nat>>, a: nat, d: nat)
    requires d < |ps|
    decreases d
  {
    a == d || (ps[d].Some? && ps[d].value < d && Above(ps, a, ps[d].value))
  }

  /** The directories before `m` whose parent is `p`, in arena order. */
  function ChildrenBelow(ps: seq<Option<nat>>, p: nat, m: nat): (r: seq<nat>)
    requires m <= |ps|
  {
    if m == 0 then []
    else ChildrenBelow(ps, p, m - 1) + if ps[m - 1] == Some(p) then [m - 1] else []
  }

  /** The children list holds exactly the directories before `m` with parent `p`, in increasing order. */
  lemma {:induction false} ChildrenMembers(ps: seq<Option<nat>>, p: nat, m: nat)
    requires m <= |ps|
    ensures var r := ChildrenBelow(ps, p, m);
      && (forall j: nat :: j in r <==> j < m && ps[j] == Some(p))
      && (forall x, y :: 0 <= x < y < |r| ==> r[x] < r[y])
      && (forall x :: 0 <= x < |r| ==> r[x] < m)
  {
    if m > 0 {
      ChildrenMembers(ps, p, m - 1);
    }
  }

  /** A directory that nobody before `m` names as parent has no children there. */
  lemma {:induction false} ChildrenNone(ps: seq<Option<nat>>, p: nat, m: nat)
    requires m <= |ps| && forall j :: 0 <= j < m ==> ps[j] != Some(p)
    ensures ChildrenBelow(ps, p, m) == []
  {
    if m > 0 {
      ChildrenNone(ps, p, m - 1);
    }
  }

  /** The total size of the files held by `a` and the directories below it, among the first `m`. */
  function SubtreeBelow(ps: seq<Option<nat>>, t: seq<nat>, a: nat, m: nat): nat
    requires m <= |ps| && |t| == |ps|
  {
    if m == 0 then 0
    else SubtreeBelow(ps, t, a, m - 1) + if Above(ps, a, m - 1) then t[m - 1] else 0
  }

  /** The total size of the files in the subtree of directory `a`. */
  function SubtreeTotal(dirs: seq<Directory>, a: nat): nat
  {
    SubtreeBelow(Parents(dirs), Totals(dirs), a, |dirs|)
  }

  /**
   * The arena is a tree: parents come before their children, each directory's children
   * are exactly the directories that name it as parent, in the order they were made,
   * and each directory's size is the total size of the files in its subtree.
   */
  predicate ValidDirs(dirs: seq<Directory>)
  {
    Linked(Parents(dirs)) && ChildrenExact(dirs) && SizesExact(dirs)
  }

  /** Each directory's children are exactly the directories that name it as parent, in arena order. */
  predicate ChildrenExact(dirs: seq<Directory>)
  {
    forall i :: 0 <= i < |dirs| ==> dirs[i].directories == ChildrenBelow(Parents(dirs), i, |dirs|)
  }

  /** Each directory's size is the total size of the files in its subtree. */
  predicate SizesExact(dirs: seq<Directory>)
  {
    forall i :: 0 <= i < |dirs| ==> dirs[i].size == SubtreeTotal(dirs, i)
  }

  /** A `Cursor` before any `cd /` points nowhere; after one, its root is the first directory. */
  predicate ValidState(s: State)
  {
    && (s.root.None? ==> s.dirs == [] && s.current.None?)
    && (s.root.Some? ==> s.root == Some(0) && s.dirs != [])
    && (s.current.Some? ==> s.current.value < |s.dirs|)
    && ValidDirs(s.dirs)
  }

  // ---------------------------------------------------------------------------------
  // Facts about the arena

  /** An ancestor comes before its descendants. */
  lemma {:induction false} AboveBefore(ps: seq<Option<nat>>, a: nat, d: nat)
    requires d < |ps| && Above(ps, a, d)
    ensures a <= d
    decreases d
  {
    if a != d {
      AboveBefore(ps, a, ps[d].value);
    }
  }

  /** Appending a directory changes nobody's ancestors. */
  lemma {:induction false} AbovePrefix(ps: seq<Option<nat>>, x: Option<nat>, a: nat, d: nat)
    requires d < |ps|
    ensures Above(ps + [x], a, d) == Above(ps, a, d)
    decreases d
  {
    assert (ps + [x])[d] == ps[d];
    if ps[d].Some? && ps[d].value < d {
      AbovePrefix(ps, x, a, ps[d].value);
    }
  }

  /** Appending a directory changes no subtree total among the earlier ones. */
  lemma {:induction false} SubtreePrefix(ps: seq<Option<nat>>, t: seq<nat>, x: Option<nat>, y: nat, a: nat, m: nat)
    requires m <= |ps| && |t| == |ps|
    ensures SubtreeBelow(ps + [x], t + [y], a, m) == SubtreeBelow(ps, t, a, m)
  {
    if m > 0 {
      SubtreePrefix(ps, t, x, y, a, m - 1);
      AbovePrefix(ps, x, a, m - 1);
      assert (t + [y])[m - 1] == t[m - 1];
    }
  }

  /** No directory before `a` lies in the subtree of `a`. */
  lemma {:induction false} SubtreeBefore(ps: seq<Option<nat>>, t: seq<nat>, a: nat, m: nat)
    requires m <= |ps| && |t| == |ps| && m <= a
    ensures SubtreeBelow(ps, t, a, m) == 0
  {
    if m > 0 {
      SubtreeBefore(ps, t, a, m - 1);
      if Above(ps, a, m - 1) {
        AboveBefore(ps, a, m - 1);
      }
    }
  }

  /** Changing the files of directory `c` changes the subtree totals of exactly its ancestors. */
  lemma {:induction false} SubtreeBump(ps: seq<Option<nat>>, t: seq<nat>, c: nat, v: nat, a: nat, m: nat)
    requires m <= |ps| && |t| == |ps| && c < |t|
    ensures var hit := c < m && Above(ps, a, c);
      SubtreeBelow(ps, t[c := v], a, m) + (if hit then t[c] else 0) == SubtreeBelow(ps, t, a, m) + (if hit then v else 0)
  {
    if m > 0 {
      SubtreeBump(ps, t, c, v, a, m - 1);
    }
  }

  /** Appending a directory adds it to the children of its parent only. */
  lemma {:induction false} ChildrenPrefix(ps: seq<Option<nat>>, x: Option<nat>, p: nat, m: nat)
    requires m <= |ps|
    ensures ChildrenBelow(ps + [x], p, m) == ChildrenBelow(ps, p, m)
  {
    if m > 0 {
      ChildrenPrefix(ps, x, p, m - 1);
      assert (ps + [x])[m - 1] == ps[m - 1];
    }
  }

  /** A list of files with one more file. */
  lemma FileTotalAppend(files: seq<File>, f: File)
    ensures FileTotal(files + [f]) == FileTotal(files) + f.size
  {
    assert (files + [f])[..|files|] == files;
  }

  /** The arena with file `f` appended to the files of directory `c`. */
  function WithFile(dirs: seq<Directory>, c: nat, f: File): seq<Directory>
    requires c < |dirs|
  {
    dirs[c := dirs[c].(files := dirs[c].files + [f])]
  }

  /** The arena with a new empty directory `name` appended as the last child of `c`. */
  function WithFolder(dirs: seq<Directory>, c: nat, name: Option<string>): seq<Directory>
    requires c < |dirs|
  {
    dirs[c := dirs[c].(directories := dirs[c].directories + [|dirs|])] + [Directory(name, Some(c), [], [], 0)]
  }

  /** The arena with `n` added to the size of `c` and of every ancestor of `c`. */
  function AddAlong(dirs: seq<Directory>, c: nat, n: nat): (r: seq<Directory>)
    requires c < |dirs|
  {
    var ps := Parents(dirs);
    seq(|dirs|, i requires 0 <= i < |dirs| => dirs[i].(size := dirs[i].size + if Above(ps, i, c) then n else 0))
  }

  /**
   * A file added to `c`, with its size added to `c` and its ancestors, keeps the arena a
   * tree of correct sizes: exactly the sizes of `c` and its ancestors grow, by the file's size.
   */
  lemma FileAdded(dirs: seq<Directory>, c: nat, f: File)
    requires ValidDirs(dirs) && c < |dirs|
    ensures var r := AddAlong(WithFile(dirs, c, f), c, f.size);
      && ValidDirs(r) && |r| == |dirs|
      && (forall i :: 0 <= i < |dirs| ==> r[i].size == dirs[i].size + if Above(Parents(dirs), i, c) then f.size else 0)
  {
    var r := AddAlong(WithFile(dirs, c, f), c, f.size);
    FileParents(dirs, c, f);
    assert ChildrenExact(r);
    FileSizes(dirs, c, f);
  }

  lemma FileParents(dirs: seq<Directory>, c: nat, f: File)
    requires c < |dirs|
    ensures var r := AddAlong(WithFile(dirs, c, f), c, f.size);
      && Parents(r) == Parents(dirs)
      && Totals(r) == Totals(dirs)[c := Totals(dirs)[c] + f.size]
      && (forall i :: 0 <= i < |dirs| ==> r[i].directories == dirs[i].directories)
      && (forall i :: 0 <= i < |dirs| ==> r[i].size == dirs[i].size + if Above(Parents(dirs), i, c) then f.size else 0)
  {
    var d1 := WithFile(dirs, c, f);
    assert Parents(d1) == Parents(dirs);
    FileTotalAppend(dirs[c].files, f);
  }

  lemma FileSizes(dirs: seq<Directory>, c: nat, f: File)
    requires ValidDirs(dirs) && c < |dirs|
    ensures SizesExact(AddAlong(WithFile(dirs, c, f), c, f.size))
  {
    var ps, t, n := Parents(dirs), Totals(dirs), |dirs|;
    var r := AddAlong(WithFile(dirs, c, f), c, f.size);
    FileParents(dirs, c, f);
    forall i | 0 <= i < n
      ensures r[i].size == SubtreeBelow(ps, t[c := t[c] + f.size], i, n)
    {
      SubtreeBump(ps, t, c, t[c] + f.size, i, n);
    }
  }

  /**
   * A new empty directory appended as the last child of `c` keeps the arena a tree of
   * correct sizes.
   */
  lemma FolderAdded(dirs: seq<Directory>, c: nat, name: Option<string>)
    requires ValidDirs(dirs) && c < |dirs|
    ensures ValidDirs(WithFolder(dirs, c, name))
  {
    var r := WithFolder(dirs, c, name);
    FolderParents(dirs, c, name);
    assert Linked(Parents(r));
    FolderChildren(dirs, c, name);
    FolderSizes(dirs, c, name);
  }

  lemma FolderParents(dirs: seq<Directory>, c: nat, name: Option<string>)
    requires c < |dirs|
    ensures Parents(WithFolder(dirs, c, name)) == Parents(dirs) + [Some(c)]
    ensures Totals(WithFolder(dirs, c, name)) == Totals(dirs) + [0]
  {
  }

  lemma FolderChildren(dirs: seq<Directory>, c: nat, name: Option<string>)
    requires ValidDirs(dirs) && c < |dirs|
    ensures ChildrenExact(WithFolder(dirs, c, name))
  {
    var ps, n := Parents(dirs), |dirs|;
    var r := WithFolder(dirs, c, name);
    FolderParents(dirs, c, name);
    forall i | 0 <= i < n + 1
      ensures r[i].directories == ChildrenBelow(ps + [Some(c)], i, n + 1)
    {
      if i < n {
        ChildrenPrefix(ps, Some(c), i, n);
      } else {
        ChildrenNone(ps + [Some(c)], n, n + 1);
      }
    }
  }

  lemma FolderSizes(dirs: seq<Directory>, c: nat, name: Option<string>)
    requires ValidDirs(dirs) && c < |dirs|
    ensures SizesExact(WithFolder(dirs, c, name))
  {
    var ps, t, n := Parents(dirs), Totals(dirs), |dirs|;
    var r := WithFolder(dirs, c, name);
    FolderParents(dirs, c, name);
    forall i | 0 <= i < n + 1
      ensures r[i].size == SubtreeBelow(ps + [Some(c)], t + [0], i, n + 1)
    {
      if i < n {
        SubtreePrefix(ps, t, Some(c), 0, i, n);
      } else {
        SubtreeBefore(ps + [Some(c)], t + [0], n, n);
      }
    }
  }

  // ---------------------------------------------------------------------------------
  // A directory's size, from its files and its subdirectories

  /** The subtree totals, among the first `m` directories, of the directories `kids`. */
  function KidsSum(ps: seq<Option<nat>>, t: seq<nat>, kids: seq<nat>, m: nat): nat
    requires m <= |ps| && |t| == |ps|
  {
    if kids == [] then 0
    else KidsSum(ps, t, kids[..|kids| - 1], m) + SubtreeBelow(ps, t, kids[|kids| - 1], m)
  }

  /** How many of `kids` are `x` or an ancestor of `x`. */
  function CountAbove(ps: seq<Option<nat>>, kids: seq<nat>, x: nat): nat
    requires x < |ps|
  {
    if kids == [] then 0
    else CountAbove(ps, kids[..|kids| - 1], x) + if Above(ps, kids[|kids| - 1], x) then 1 else 0
  }

  lemma {:induction false} KidsZero(ps: seq<Option<nat>>, t: seq<nat>, kids: seq<nat>)
    requires |t| == |ps|
    ensures KidsSum(ps, t, kids, 0) == 0
  {
    if kids != [] {
      KidsZero(ps, t, kids[..|kids| - 1]);
    }
  }

  /** One more directory `m` counts once in the subtree of each of `kids` above it. */
  lemma {:induction false} KidsStep(ps: seq<Option<nat>>, t: seq<nat>, kids: seq<nat>, m: nat)
    requires m < |ps| && |t| == |ps|
    ensures KidsSum(ps, t, kids, m + 1) == KidsSum(ps, t, kids, m) + CountAbove(ps, kids, m) * t[m]
  {
    if kids != [] {
      var init := kids[..|kids| - 1];
      KidsStep(ps, t, init, m);
      var c := CountAbove(ps, init, m);
      assert (c + 1) * t[m] == c * t[m] + t[m];
    }
  }

  /** Ancestry is transitive. */
  lemma {:induction false} AboveTrans(ps: seq<Option<nat>>, a: nat, b: nat, d: nat)
    requires b < |ps| && d < |ps| && Above(ps, a, b) && Above(ps, b, d)
    ensures Above(ps, a, d)
    decreases d
  {
    if b != d {
      AboveTrans(ps, a, b, ps[d].value);
    }
  }

  /** Counts agree for two directories that the same of `kids` lie above. */
  lemma {:induction false} CountSame(ps: seq<Option<nat>>, kids: seq<nat>, x: nat, y: nat)
    requires x < |ps| && y < |ps|
    requires forall k :: 0 <= k < |kids| ==> Above(ps, kids[k], x) == Above(ps, kids[k], y)
    ensures CountAbove(ps, kids, x) == CountAbove(ps, kids, y)
  {
    if kids != [] {
      CountSame(ps, kids[..|kids| - 1], x, y);
    }
  }

  /** The count is the number of times the only one above `x` occurs, or 0 with none. */
  lemma {:induction false} CountExact(ps: seq<Option<nat>>, kids: seq<nat>, x: nat, c: Option<nat>)
    requires x < |ps| && forall u, v :: 0 <= u < v < |kids| ==> kids[u] < kids[v]
    requires forall k :: 0 <= k < |kids| ==> (Above(ps, kids[k], x) <==> Some(kids[k]) == c)
    ensures CountAbove(ps, kids, x) == if c.Some? && c.value in kids then 1 else 0
  {
    if kids != [] {
      var init := kids[..|kids| - 1];
      CountExact(ps, init, x, c);
      if Some(kids[|kids| - 1]) == c {
        assert c.value !in init;
      }
    }
  }

  /** Exactly one child of `a` lies above each proper descendant of `a`, and none above anything else. */
  lemma {:induction false} CountChildren(ps: seq<Option<nat>>, a: nat, x: nat)
    requires Linked(ps) && a < |ps| && x < |ps|
    ensures CountAbove(ps, ChildrenBelow(ps, a, |ps|), x) == if x != a && Above(ps, a, x) then 1 else 0
    decreases x
  {
    var kids := ChildrenBelow(ps, a, |ps|);
    ChildrenMembers(ps, a, |ps|);
    if x != a && Above(ps, a, x) {
      var p := ps[x].value;
      if p == a {
        forall k | 0 <= k < |kids|
          ensures Above(ps, kids[k], x) <==> Some(kids[k]) == Some(x)
        {
          assert kids[k] in kids;
          if Above(ps, kids[k], x) && kids[k] != x {
            AboveBefore(ps, kids[k], a);
          }
        }
        CountExact(ps, kids, x, Some(x));
      } else {
        forall k | 0 <= k < |kids|
          ensures Above(ps, kids[k], x) == Above(ps, kids[k], p)
        {
          assert kids[k] in kids;
        }
        CountSame(ps, kids, x, p);
        CountChildren(ps, a, p);
      }
    } else {
      forall k | 0 <= k < |kids|
        ensures Above(ps, kids[k], x) <==> Some(kids[k]) == None
      {
        assert kids[k] in kids;
        if Above(ps, kids[k], x) {
          assert Above(ps, a, kids[k]);
          AboveTrans(ps, a, kids[k], x);
          if x == a {
            AboveBefore(ps, kids[k], x);
          }
        }
      }
      CountExact(ps, kids, x, None);
    }
  }

  /** A subtree's total is its own files' plus the totals of the subtrees of its children. */
  lemma {:induction false} SubtreeSplit(ps: seq<Option<nat>>, t: seq<nat>, a: nat, m: nat)
    requires Linked(ps) && |t| == |ps| && a < |ps| && m <= |ps|
    ensures SubtreeBelow(ps, t, a, m) == (if a < m then t[a] else 0) + KidsSum(ps, t, ChildrenBelow(ps, a, |ps|), m)
  {
    var kids := ChildrenBelow(ps, a, |ps|);
    if m == 0 {
      KidsZero(ps, t, kids);
    } else {
      SubtreeSplit(ps, t, a, m - 1);
      KidsStep(ps, t, kids, m - 1);
      CountChildren(ps, a, m - 1);
    }
  }

  lemma {:induction false} SizeSumKids(dirs: seq<Directory>, kids: seq<nat>)
    requires SizesExact(dirs) && forall k :: 0 <= k < |kids| ==> kids[k] < |dirs|
    ensures SizeSum(dirs, kids) == KidsSum(Parents(dirs), Totals(dirs), kids, |dirs|)
  {
    if kids != [] {
      SizeSumKids(dirs, kids[..|kids| - 1]);
    }
  }

  /**
   * In a valid tree, the size of a directory is the total size of its own files plus the
   * sizes of its subdirectories, as `update_size` maintains it one file at a time.
   */
  lemma DirectorySize(dirs: seq<Directory>, d: nat)
    requires ValidDirs(dirs) && d < |dirs|
    ensures forall k :: 0 <= k < |dirs[d].directories| ==> dirs[d].directories[k] < |dirs|
    ensures dirs[d].size == FileTotal(dirs[d].files) + SizeSum(dirs, dirs[d].directories)
  {
    var ps := Parents(dirs);
    ChildrenMembers(ps, d, |dirs|);
    SubtreeSplit(ps, Totals(dirs), d, |dirs|);
    SizeSumKids(dirs, dirs[d].directories);
  }

  // ---------------------------------------------------------------------------------
  // The cursor's operations on values

  /** The cursor before the first command: no root and no current directory. */
  function Initial(): (s: State)
    ensures ValidState(s)
  {
    State(None, None, [])
  }

  /** `create_root`: a fresh, empty root that is also the current directory. */
  function AfterCreateRoot(): (s: State)
    ensures ValidState(s) && s.root == Some(0) && s.current == Some(0) && |s.dirs| == 1
    ensures s.dirs[0].files == [] && s.dirs[0].directories == [] && s.dirs[0].size == 0
  {
    var s := State(Some(0), Some(0), [Directory(Some("/"), None, [], [], 0)]);
    assert Parents(s.dirs) == [None];
    assert ChildrenBelow(Parents(s.dirs), 0, 1) == [];
    s
  }

  /** The first position in `kids` of a directory named `path`, as `find` looks for it. */
  function FindChild(dirs: seq<Directory>, kids: seq<nat>, path: Option<string>): (r: Option<nat>)
    requires forall k :: 0 <= k < |kids| ==> kids[k] < |dirs|
    ensures r.Some? ==> r.value < |kids| && dirs[kids[r.value]].name == path
    ensures r.Some? ==> forall k :: 0 <= k < r.value ==> dirs[kids[k]].name != path
    ensures r.None? ==> forall k :: 0 <= k < |kids| ==> dirs[kids[k]].name != path
  {
    if kids == [] then None
    else if dirs[kids[0]].name == path then Some(0)
    else
      var rest := FindChild(dirs, kids[1..], path);
      if rest.None? then None else Some(rest.value + 1)
  }

  /**
   * `cd`: `/` starts a fresh tree; otherwise, with a current directory, `..` moves to its
   * parent and a name to its first child of that name, and anything else fails.
   */
  function AfterCd(s: State, path: Option<string>): (r: Option<State>)
    requires ValidState(s)
    ensures r.Some? ==> ValidState(r.value)
    ensures path == Some("/") ==> r.Some? && r.value.current == Some(0) && |r.value.dirs| == 1
    ensures path != Some("/") && r.Some? ==> r.value.root == s.root && r.value.dirs == s.dirs
    ensures path != Some("/") && s.current.None? ==> r.None?
    ensures path != Some("/") && path != Some("..") && s.current.Some? ==>
      var kids := s.dirs[s.current.value].directories;
      (r.Some? <==> exists k :: 0 <= k < |kids| && kids[k] < |s.dirs| && s.dirs[kids[k]].name == path)
    ensures path != Some("/") && path != Some("..") && r.Some? ==>
      r.value.current.Some? && r.value.current.value < |s.dirs| &&
      s.dirs[r.value.current.value].parent == s.current && s.dirs[r.value.current.value].name == path
  {
    if path == Some("/") then Some(AfterCreateRoot())
    else if s.current.None? then None
    else
      var c := s.current.value;
      if path == Some("..") then Some(s.(current := s.dirs[c].parent))
      else
        var kids := s.dirs[c].directories;
        ChildrenMembers(Parents(s.dirs), c, |s.dirs|);
        var k := FindChild(s.dirs, kids, path);
        if k.None? then None else Some(s.(current := Some(kids[k.value])))
  }

  /** `insert_file`: the file is added to the current directory, and its size along the way up. */
  function AfterInsertFile(s: State, name: Option<string>, size: nat): (r: Option<State>)
    requires ValidState(s)
    ensures r.Some? <==> s.current.Some?
    ensures r.Some? ==> ValidState(r.value) && r.value.root == s.root && r.value.current == s.current
    ensures r.Some? ==> |r.value.dirs| == |s.dirs| && r.value.dirs[s.current.value].files == s.dirs[s.current.value].files + [File(name, size)]
    ensures r.Some? ==> forall i :: 0 <= i < |s.dirs| ==>
      r.value.dirs[i].size == s.dirs[i].size + if Above(Parents(s.dirs), i, s.current.value) then size else 0
  {
    if s.current.None? then None
    else
      var c := s.current.value;
      FileAdded(s.dirs, c, File(name, size));
      Some(s.(dirs := AddAlong(WithFile(s.dirs, c, File(name, size)), c, size)))
  }

  /** `insert_folder`: a new empty directory, child of the current one. */
  function AfterInsertFolder(s: State, name: Option<string>): (r: Option<State>)
    requires ValidState(s)
    ensures r.Some? <==> s.current.Some?
    ensures r.Some? ==> ValidState(r.value) && r.value.root == s.root && r.value.current == s.current
    ensures r.Some? ==> var n := |s.dirs|; var c := s.current.value;
      && |r.value.dirs| == n + 1 && r.value.dirs[n] == Directory(name, Some(c), [], [], 0)
      && r.value.dirs[c].directories == s.dirs[c].directories + [n]
      && forall i :: 0 <= i < n ==> r.value.dirs[i].size == s.dirs[i].size
  {
    if s.current.None? then None
    else
      var c := s.current.value;
      FolderAdded(s.dirs, c, name);
      Some(s.(dirs := WithFolder(s.dirs, c, name)))
  }

  /** Moving into a child by name and back up with `..` returns to where the cursor was. */
  lemma CdBack(s: State, name: string)
    requires ValidState(s) && name != "/" && name != ".." && AfterCd(s, Some(name)).Some?
    ensures AfterCd(AfterCd(s, Some(name)).value, Some("..")) == Some(s)
  {
    var c := s.current.value;
    ChildrenMembers(Parents(s.dirs), c, |s.dirs|);
  }

  // ---------------------------------------------------------------------------------
  // The rows of the terminal session

  /** `row.startsWith(prefix)`. */
  predicate StartsWith(row: string, prefix: string)
  {
    |prefix| <= |row| && row[..|prefix|] == prefix
  }

  /** Element `k` of a destructured array, `undefined` past its end. */
  function Word(words: seq<string>, k: nat): (w: Option<string>)
    ensures w.Some? <==> k < |words|
    ensures w.Some? ==> w.value == words[k]
  {
    if k < |words| then Some(words[k]) else None
  }

  /**
   * `Number(text)` on the text a size column can hold: surrounding whitespace is dropped,
   * the empty text is 0, and a run of decimal digits is its value; anything else is not
   * modelled.
   */
  function JsNumber(text: string): (r: Option<nat>)
    ensures text == [] ==> r == Some(0)
    ensures r.Some? ==> AllDigits(Trim(text)) && r.value == DigitsValue(Trim(text))
  {
    var t := Trim(text);
    if AllDigits(t) then Some(DigitsValue(t)) else None
  }

  /** `Number` reads a decimal rendering back as its value. */
  lemma JsNumberDecimal(n: nat)
    ensures JsNumber(Decimal(n)) == Some(n)
  {
    var d := Decimal(n);
    assert IsDigit(d[0]) && IsDigit(d[|d| - 1]);
    TrimPadded([], d);
    assert [] + d == d;
    DecimalValue(n);
  }

  /** What the main loop does with one row. */
  datatype Row =
    | CdRow(arg: Option<string>)          // `$ cd <arg>`
    | Pass                                // `$ ls`, or any other command
    | DirRow(name: Option<string>)        // `dir <name>`
    | FileRow(size: string, name: Option<string>)  // `<size> <name>`

  /** The branches of the main loop: `$` rows by their command, then `dir` rows, then files. */
  function ParseRow(row: string): (r: Row)
    ensures r.CdRow? || r.Pass? ==> StartsWith(row, "$")
    ensures r.DirRow? ==> !StartsWith(row, "$") && StartsWith(row, "dir")
    ensures r.FileRow? <==> !StartsWith(row, "$") && !StartsWith(row, "dir")
  {
    var words := Split(row, " ");
    if StartsWith(row, "$") then
      if Word(words, 1) == Some("cd") then CdRow(Word(words, 2)) else Pass
    else if StartsWith(row, "dir") then DirRow(Word(words, 1))
    else FileRow(words[0], Word(words, 1))
  }

  /** The words of a row as a terminal session prints it; a missing name is no word. */
  function RowWords(r: Row): (words: seq<string>)
    ensures |words| >= 1
  {
    match r
    case CdRow(arg) => ["$", "cd"] + NameWords(arg)
    case Pass => ["$", "ls"]
    case DirRow(name) => ["dir"] + NameWords(name)
    case FileRow(size, name) => [size] + NameWords(name)
  }

  function NameWords(name: Option<string>): (words: seq<string>)
  {
    if name.Some? then [name.value] else []
  }

  /** A row as a terminal session prints it: its words separated by single spaces. */
  function RowText(r: Row): string
  {
    Join(RowWords(r), " ")
  }

  /** A row the session could have printed: names without spaces, sizes of decimal digits. */
  predicate Printable(r: Row)
  {
    match r
    case CdRow(arg) => NoSpace(arg)
    case Pass => true
    case DirRow(name) => NoSpace(name)
    case FileRow(size, name) => |size| > 0 && AllDigits(size) && NoSpace(name)
  }

  predicate NoSpace(name: Option<string>)
  {
    name.Some? ==> ' ' !in name.value
  }

  /** A joined text starts with its first piece. */
  lemma JoinStarts(parts: seq<string>, sep: string)
    requires |parts| >= 1
    ensures StartsWith(Join(parts, sep), parts[0])
  {
    var j := Join(parts, sep);
    if |parts| > 1 {
      assert j == parts[0] + (sep + Join(parts[1..], sep));
    }
  }

  /** Splitting a printable row at its spaces gives back its words. */
  lemma RowSplit(r: Row)
    requires Printable(r)
    ensures Split(RowText(r), " ") == RowWords(r)
    ensures StartsWith(RowText(r), RowWords(r)[0])
  {
    var words := RowWords(r);
    forall k | 0 <= k < |words|
      ensures ' ' !in words[k]
    {
      if r.FileRow? && k == 0 {
        forall i | 0 <= i < |r.size|
          ensures r.size[i] != ' '
        {
          assert IsDigit(r.size[i]);
        }
      }
    }
    SplitJoin(words, ' ');
    JoinStarts(words, " ");
  }

  /** Each branch of the main loop reads back the row it was given. */
  lemma ParseRowText(r: Row)
    requires Printable(r)
    ensures ParseRow(RowText(r)) == r
  {
    var row := RowText(r);
    RowSplit(r);
    if r.DirRow? {
      assert row[0] == 'd';
    } else if r.FileRow? {
      assert row[0] == r.size[0] && IsDigit(r.size[0]);
    }
  }

  /** One row of the session applied to the cursor, `None` where an assertion fails. */
  function Step(s: State, row: string): (r: Option<State>)
    requires ValidState(s)
    ensures r.Some? ==> ValidState(r.value)
  {
    match ParseRow(row)
    case CdRow(arg) => AfterCd(s, arg)
    case Pass => Some(s)
    case DirRow(name) => AfterInsertFolder(s, name)
    case FileRow(size, name) =>
      var n := JsNumber(size);
      if n.None? then None else AfterInsertFile(s, name, n.value)
  }

  /** The rows applied in order, stopping at the first failure. */
  function Run(s: State, rows: seq<string>): (r: Option<State>)
    requires ValidState(s)
    ensures r.Some? ==> ValidState(r.value)
    decreases |rows|
  {
    if rows == [] then Some(s)
    else
      var t := Step(s, rows[0]);
      if t.None? then None else Run(t.value, rows[1..])
  }

  /** The rows that are not empty, in order. */
  function NonEmpty(rows: seq<string>): (r: seq<string>)
    ensures forall k :: 0 <= k < |r| ==> r[k] != []
    ensures forall k :: 0 <= k < |r| ==> r[k] in rows
  {
    if rows == [] then []
    else (if rows[0] == [] then [] else [rows[0]]) + NonEmpty(rows[1..])
  }

  /** The input's lines with the empty ones dropped. */
  function Rows(text: string): seq<string>
  {
    NonEmpty(Split(text, "\n"))
  }

  /** Dropping the empty rows keeps any list without empty rows whole. */
  lemma {:induction false} NonEmptyKeeps(rows: seq<string>)
    requires forall k :: 0 <= k < |rows| ==> rows[k] != []
    ensures NonEmpty(rows) == rows
  {
    if rows != [] {
      NonEmptyKeeps(rows[1..]);
    }
  }

  /** Rows without line feeds, joined into one text one per line, are read back as they were. */
  lemma RowsJoin(rows: seq<string>)
    requires |rows| >= 1 && forall k :: 0 <= k < |rows| ==> rows[k] != [] && '\n' !in rows[k]
    ensures Rows(Join(rows, "\n")) == rows
  {
    SplitJoin(rows, '\n');
    NonEmptyKeeps(rows);
  }

  /** The total size of directories `xs` whose size is at most `SmallLimit`. */
  function SmallSum(dirs: seq<Directory>, xs: seq<nat>): nat
    requires forall k :: 0 <= k < |xs| ==> xs[k] < |dirs|
  {
    if xs == [] then 0
    else
      var d := xs[|xs| - 1];
      SmallSum(dirs, xs[..|xs| - 1]) + if dirs[d].size <= SmallLimit then dirs[d].size else 0
  }

  /** The indices of the arena, in order. */
  function Indices(n: nat): (r: seq<nat>)
    ensures |r| == n && forall k :: 0 <= k < n ==> r[k] == k
  {
    seq(n, k => k)
  }

  /** The sum, over every directory, of the sizes of at most `SmallLimit`. */
  function SmallTotal(dirs: seq<Directory>): nat
  {
    SmallSum(dirs, Indices(|dirs|))
  }

  /**
   * The program's answer: the session rebuilt into a tree, then the total of the sizes of
   * at most 100000 over all its directories; `None` where an assertion fails.
   */
  function Answer(text: string): (r: Option<nat>)
  {
    var s := Run(Initial(), Rows(text));
    if s.None? || s.value.root.None? then None else Some(SmallTotal(s.value.dirs))
  }

  // ---------------------------------------------------------------------------------
  // The cursor object

  /** Directory `i` lies on the way up from `c` and has been passed before reaching `here`. */
  predicate Passed(ps: seq<Option<nat>>, c: nat, here: Option<nat>, i: nat)
    requires c < |ps| && i < |ps| && (here.Some? ==> here.value < |ps|)
  {
    Above(ps, i, c) && (here.None? || !Above(ps, i, here.value))
  }

  /** The arena part way through `update_size`: `n` added to the directories passed so far. */
  function Climbed(dirs: seq<Directory>, c: nat, n: nat, here: Option<nat>): (r: seq<Directory>)
    requires c < |dirs| && (here.Some? ==> here.value < |dirs|)
    ensures |r| == |dirs|
  {
    var ps := Parents(dirs);
    seq(|dirs|, i requires 0 <= i < |dirs| => dirs[i].(size := dirs[i].size + if Passed(ps, c, here, i) then n else 0))
  }

  /** The parent of an ancestor is an ancestor. */
  lemma {:induction false} AboveParent(ps: seq<Option<nat>>, a: nat, d: nat)
    requires d < |ps| && a < |ps| && Linked(ps) && Above(ps, a, d) && ps[a].Some?
    ensures Above(ps, ps[a].value, d)
    decreases d
  {
    if a != d {
      AboveParent(ps, a, ps[d].value);
    }
  }

  /** Before the first step up nothing has been passed; at the top everything above `c` has. */
  lemma ClimbedEnds(dirs: seq<Directory>, c: nat, n: nat)
    requires c < |dirs|
    ensures Climbed(dirs, c, n, Some(c)) == dirs
    ensures Climbed(dirs, c, n, None) == AddAlong(dirs, c, n)
  {
    var r := Climbed(dirs, c, n, Some(c));
    assert forall i :: 0 <= i < |dirs| ==> r[i] == dirs[i];
  }

  /** One step of `update_size`: adding `n` to `here` passes it, and the walk goes on at its parent. */
  lemma ClimbedStep(dirs: seq<Directory>, c: nat, n: nat, h: nat)
    requires c < |dirs| && h < |dirs| && Linked(Parents(dirs)) && Above(Parents(dirs), h, c)
    ensures var cur := Climbed(dirs, c, n, Some(h));
      cur[h := cur[h].(size := cur[h].size + n)] == Climbed(dirs, c, n, dirs[h].parent)
  {
    var ps := Parents(dirs);
    assert ps[h] == dirs[h].parent;
    var cur := Climbed(dirs, c, n, Some(h));
    var next := Climbed(dirs, c, n, dirs[h].parent);
    forall i | 0 <= i < |dirs|
      ensures (if i == h then cur[h].(size := cur[h].size + n) else cur[i]) == next[i]
    {
      if ps[h].Some? && Above(ps, h, ps[h].value) {
        AboveBefore(ps, h, ps[h].value);
      }
      assert Passed(ps, c, dirs[h].parent, i) == (Passed(ps, c, Some(h), i) || i == h);
    }
  }

  /**
   * The `Cursor`: its root and current directory point into the arena of the directories it
   * has made.
   */
  class Cursor {
    var root: Option<nat>
    var current: Option<nat>
    var dirs: seq<Directory>

    /** The cursor's fields as a value. */
    function Snapshot(): (s: State)
      reads this
      ensures s.root == root && s.current == current && s.dirs == dirs
    {
      State(root, current, dirs)
    }

    predicate Valid()
      reads this
    {
      ValidState(Snapshot())
    }

    constructor ()
      ensures Snapshot() == Initial() && Valid()
    {
      root := None;
      current := None;
      dirs := [];
    }

    /** `create_root`. */
    method CreateRoot()
      modifies this
      ensures Snapshot() == AfterCreateRoot() && Valid()
    {
      dirs := [Directory(Some("/"), None, [], [], 0)];
      root := Some(0);
      current := root;
    }

    /**
     * `update_size`: walks up the parent pointers from the current directory, adding `n`
     * to each directory on the way; without a current directory it fails.
     */
    method UpdateSize(n: nat) returns (ok: bool)
      requires current.Some? ==> current.value < |dirs|
      requires Linked(Parents(dirs))
      modifies this
      ensures ok == old(current).Some? && root == old(root) && current == old(current)
      ensures ok ==> dirs == AddAlong(old(dirs), old(current).value, n)
      ensures !ok ==> dirs == old(dirs)
    {
      if current.None? {
        return false;
      }
      var c := current.value;
      ghost var ps := Parents(dirs);
      ClimbedEnds(dirs, c, n);
      var here := current;
      while here.Some?
        invariant here.Some? ==> here.value < |dirs| && Above(ps, here.value, c)
        invariant dirs == Climbed(old(dirs), c, n, here)
        invariant root == old(root) && current == old(current)
        decreases if here.Some? then here.value + 1 else 0
      {
        var d := here.value;
        assert ps[d] == old(dirs)[d].parent == dirs[d].parent;
        ClimbedStep(old(dirs), c, n, d);
        dirs := dirs[d := dirs[d].(size := dirs[d].size + n)];
        if ps[d].Some? {
          AboveParent(ps, d, c);
        }
        here := dirs[d].parent;
      }
      ok := true;
    }

    /** `cd`; a failed assertion leaves the cursor as it was. */
    method Cd(path: Option<string>) returns (ok: bool)
      requires Valid()
      modifies this
      ensures ok == AfterCd(old(Snapshot()), path).Some?
      ensures ok ==> Snapshot() == AfterCd(old(Snapshot()), path).value
      ensures !ok ==> Snapshot() == old(Snapshot())
    {
      if path == Some("/") {
        CreateRoot();
        return true;
      }
      if current.None? {
        return false;
      }
      var c := current.value;
      if path == Some("..") {
        current := dirs[c].parent;
        return true;
      }
      ChildrenMembers(Parents(dirs), c, |dirs|);
      var k := FindChild(dirs, dirs[c].directories, path);
      if k.None? {
        return false;
      }
      current := Some(dirs[c].directories[k.value]);
      ok := true;
    }

    /** `insert_file`; a failed assertion leaves the cursor as it was. */
    method InsertFile(name: Option<string>, size: nat) returns (ok: bool)
      requires Valid()
      modifies this
      ensures ok == AfterInsertFile(old(Snapshot()), name, size).Some?
      ensures ok ==> Snapshot() == AfterInsertFile(old(Snapshot()), name, size).value
      ensures !ok ==> Snapshot() == old(Snapshot())
    {
      if current.None? {
        return false;
      }
      var c := current.value;
      dirs := dirs[c := dirs[c].(files := dirs[c].files + [File(name, size)])];
      assert Parents(dirs) == Parents(old(dirs));
      ok := UpdateSize(size);
    }

    /** `insert_folder`; a failed assertion leaves the cursor as it was. */
    method InsertFolder(name: Option<string>) returns (ok: bool)
      requires Valid()
      modifies this
      ensures ok == AfterInsertFolder(old(Snapshot()), name).Some?
      ensures ok ==> Snapshot() == AfterInsertFolder(old(Snapshot()), name).value
      ensures !ok ==> Snapshot() == old(Snapshot())
    {
      if current.None? {
        return false;
      }
      var c := current.value;
      var folder := Directory(name, current, [], [], 0);
      dirs := dirs[c := dirs[c].(directories := dirs[c].directories + [|dirs|])] + [folder];
      ok := true;
    }
  }

  // ---------------------------------------------------------------------------------
  // The final traversal

  predicate Distinct(xs: seq<nat>)
  {
    forall x, y :: 0 <= x < y < |xs| ==> xs[x] != xs[y]
  }

  /** The directories of `xs` whose size is at most `SmallLimit`, in order. */
  function Small(dirs: seq<Directory>, xs: seq<nat>): (r: seq<nat>)
    requires forall k :: 0 <= k < |xs| ==> xs[k] < |dirs|
    ensures forall k :: 0 <= k < |r| ==> r[k] < |dirs| && dirs[r[k]].size <= SmallLimit
  {
    if xs == [] then []
    else
      var d := xs[|xs| - 1];
      Small(dirs, xs[..|xs| - 1]) + if dirs[d].size <= SmallLimit then [d] else []
  }

  /** The total size of the directories `xs`. */
  function SizeSum(dirs: seq<Directory>, xs: seq<nat>): nat
    requires forall k :: 0 <= k < |xs| ==> xs[k] < |dirs|
  {
    if xs == [] then 0 else SizeSum(dirs, xs[..|xs| - 1]) + dirs[xs[|xs| - 1]].size
  }

  /** Summing the sizes of the small directories is summing the small sizes. */
  lemma {:induction false} SmallSizes(dirs: seq<Directory>, xs: seq<nat>)
    requires forall k :: 0 <= k < |xs| ==> xs[k] < |dirs|
    ensures SizeSum(dirs, Small(dirs, xs)) == SmallSum(dirs, xs)
  {
    if xs != [] {
      var init, d := xs[..|xs| - 1], xs[|xs| - 1];
      SmallSizes(dirs, init);
      var r := Small(dirs, xs);
      if dirs[d].size <= SmallLimit {
        assert r == Small(dirs, init) + [d];
        assert r[..|r| - 1] == Small(dirs, init);
      } else {
        assert r == Small(dirs, init) + [];
        assert r == Small(dirs, init);
      }
    }
  }

  lemma {:induction false} SmallSumAppend(dirs: seq<Directory>, xs: seq<nat>, ys: seq<nat>)
    requires forall k :: 0 <= k < |xs| ==> xs[k] < |dirs|
    requires forall k :: 0 <= k < |ys| ==> ys[k] < |dirs|
    ensures SmallSum(dirs, xs + ys) == SmallSum(dirs, xs) + SmallSum(dirs, ys)
  {
    if ys == [] {
      assert xs + ys == xs;
    } else {
      assert (xs + ys)[..|xs + ys| - 1] == xs + ys[..|ys| - 1];
      SmallSumAppend(dirs, xs, ys[..|ys| - 1]);
    }
  }

  /** `xs` with its entry at `j` taken out. */
  function Without(xs: seq<nat>, j: nat): (ys: seq<nat>)
    requires j < |xs|
    ensures |ys| == |xs| - 1
    ensures forall k :: 0 <= k < |ys| ==> ys[k] == if k < j then xs[k] else xs[k + 1]
  {
    xs[..j] + xs[j + 1..]
  }

  /** Taking an entry out of a list without repeats leaves one without repeats or that entry. */
  lemma WithoutDistinct(xs: seq<nat>, j: nat)
    requires j < |xs| && Distinct(xs)
    ensures Distinct(Without(xs, j))
    ensures forall k :: 0 <= k < |xs| - 1 ==> Without(xs, j)[k] != xs[j]
  {
  }

  /** Every other entry stays. */
  lemma WithoutKeeps(xs: seq<nat>, j: nat, d: nat)
    requires j < |xs| && d in xs && d != xs[j]
    ensures d in Without(xs, j)
  {
    var ys := Without(xs, j);
    var k :| 0 <= k < |xs| && xs[k] == d;
    if k < j {
      assert ys[k] == d;
    } else {
      assert ys[k - 1] == d;
    }
  }

  /** A list of distinct directories below `m` is no longer than `m`. */
  lemma {:induction false} DistinctBound(xs: seq<nat>, m: nat)
    requires Distinct(xs) && forall k :: 0 <= k < |xs| ==> xs[k] < m
    ensures |xs| <= m
  {
    if xs != [] {
      assert xs[0] < m;
      if j :| 0 <= j < |xs| && xs[j] == m - 1 {
        WithoutDistinct(xs, j);
        DistinctBound(Without(xs, j), m - 1);
      } else {
        DistinctBound(xs, m - 1);
      }
    }
  }

  /**
   * A list that visits each of the first `m` directories exactly once has length `m` and
   * the same total of small sizes as the arena order.
   */
  lemma {:induction false} CoverSum(dirs: seq<Directory>, xs: seq<nat>, m: nat)
    requires m <= |dirs| && Distinct(xs) && forall k :: 0 <= k < |xs| ==> xs[k] < m
    requires forall d :: 0 <= d < m ==> d in xs
    ensures |xs| == m && SmallSum(dirs, xs) == SmallSum(dirs, Indices(m))
  {
    if m == 0 {
      DistinctBound(xs, 0);
    } else {
      assert m - 1 in xs;
      var j :| 0 <= j < |xs| && xs[j] == m - 1;
      var ys := Without(xs, j);
      WithoutDistinct(xs, j);
      forall d | 0 <= d < m - 1
        ensures d in ys
      {
        WithoutKeeps(xs, j, d);
      }
      CoverSum(dirs, ys, m - 1);
      RemoveOne(dirs, xs, j);
      assert Indices(m)[..m - 1] == Indices(m - 1);
    }
  }

  /** Taking one directory out of a list takes its small size out of the sum. */
  lemma RemoveOne(dirs: seq<Directory>, xs: seq<nat>, j: nat)
    requires j < |xs| && forall k :: 0 <= k < |xs| ==> xs[k] < |dirs|
    ensures var d := xs[j];
      SmallSum(dirs, xs) == SmallSum(dirs, Without(xs, j)) + if dirs[d].size <= SmallLimit then dirs[d].size else 0
  {
    SmallSumAt(dirs, xs, j);
    SmallSumAppend(dirs, xs[..j], xs[j + 1..]);
  }

  /** The small sizes of a list: those before entry `j`, that of `j`, and those after. */
  lemma {:induction false} SmallSumAt(dirs: seq<Directory>, xs: seq<nat>, j: nat)
    requires j < |xs| && forall k :: 0 <= k < |xs| ==> xs[k] < |dirs|
    ensures var d := xs[j];
      SmallSum(dirs, xs) == SmallSum(dirs, xs[..j]) + SmallSum(dirs, xs[j + 1..]) + if dirs[d].size <= SmallLimit then dirs[d].size else 0
  {
    var init := xs[..|xs| - 1];
    if j == |xs| - 1 {
      assert xs[j + 1..] == [];
    } else {
      SmallSumAt(dirs, init, j);
      assert init[..j] == xs[..j];
      assert xs[j + 1..][..|xs| - j - 2] == init[j + 1..];
    }
  }

  /** Each directory's children: those `visit` pushes after visiting it. */
  predicate Closed(dirs: seq<Directory>, nodes: seq<nat>, i: nat)
    requires i <= |nodes| && forall k :: 0 <= k < |nodes| ==> nodes[k] < |dirs|
  {
    forall j, k :: 0 <= j < i && 0 <= k < |dirs[nodes[j]].directories| ==> dirs[nodes[j]].directories[k] in nodes
  }

  /** Every directory but the first entered the list after its parent was visited. */
  predicate ParentsVisited(dirs: seq<Directory>, nodes: seq<nat>, i: nat)
    requires i <= |nodes| && forall k :: 0 <= k < |nodes| ==> nodes[k] < |dirs|
  {
    forall q :: 1 <= q < |nodes| ==> dirs[nodes[q]].parent.Some? && dirs[nodes[q]].parent.value in nodes[..i]
  }

  /** Pushing the children of the directory being visited keeps the list free of repeats. */
  lemma PushFresh(dirs: seq<Directory>, nodes: seq<nat>, i: nat)
    requires ValidDirs(dirs) && i < |nodes| && nodes[0] == 0
    requires forall k :: 0 <= k < |nodes| ==> nodes[k] < |dirs|
    requires Distinct(nodes) && ParentsVisited(dirs, nodes, i)
    ensures var kids := dirs[nodes[i]].directories;
      && (forall k :: 0 <= k < |kids| ==> kids[k] < |dirs| && dirs[kids[k]].parent == Some(nodes[i]))
      && Distinct(nodes + kids)
  {
    var ps, node := Parents(dirs), nodes[i];
    var kids := dirs[node].directories;
    ChildrenMembers(ps, node, |dirs|);
    var all := nodes + kids;
    forall x, y | 0 <= x < y < |all|
      ensures all[x] != all[y]
    {
      if y >= |nodes| && x < |nodes| {
        var c := kids[y - |nodes|];
        assert ps[c] == Some(node);
      }
    }
  }

  /** Once every listed directory is visited, every directory of the tree is listed. */
  lemma {:induction false} AllReached(dirs: seq<Directory>, nodes: seq<nat>, d: nat)
    requires ValidDirs(dirs) && |nodes| >= 1 && nodes[0] == 0 && d < |dirs|
    requires forall k :: 0 <= k < |nodes| ==> nodes[k] < |dirs|
    requires Closed(dirs, nodes, |nodes|)
    ensures d in nodes
  {
    var ps := Parents(dirs);
    if d != 0 {
      var p := ps[d].value;
      AllReached(dirs, nodes, p);
      var j :| 0 <= j < |nodes| && nodes[j] == p;
      ChildrenMembers(ps, p, |dirs|);
      var k :| 0 <= k < |dirs[p].directories| && dirs[p].directories[k] == d;
    }
  }

  /** The queue part way through the traversal, `i` of its entries visited. */
  predicate Visiting(dirs: seq<Directory>, nodes: seq<nat>, i: nat)
  {
    && i <= |nodes| <= |dirs| && |nodes| >= 1 && nodes[0] == 0
    && (forall k :: 0 <= k < |nodes| ==> nodes[k] < |dirs|)
    && Distinct(nodes) && ParentsVisited(dirs, nodes, i) && Closed(dirs, nodes, i)
  }

  /** Visiting one more directory queues its children and keeps the queue in shape. */
  lemma VisitStep(dirs: seq<Directory>, nodes: seq<nat>, i: nat)
    requires ValidDirs(dirs) && Visiting(dirs, nodes, i) && i < |nodes|
    ensures var next := nodes + dirs[nodes[i]].directories;
      Visiting(dirs, next, i + 1) && next[..i + 1] == nodes[..i + 1]
  {
    var kids := dirs[nodes[i]].directories;
    var next := nodes + kids;
    PushFresh(dirs, nodes, i);
    assert next[..i + 1] == nodes[..i + 1];
    assert forall k :: 0 <= k < |next| ==> next[k] < |dirs|;
    DistinctBound(next, |dirs|);
    VisitParents(dirs, nodes, i);
    VisitClosed(dirs, nodes, i);
  }

  lemma VisitParents(dirs: seq<Directory>, nodes: seq<nat>, i: nat)
    requires i < |nodes| && forall k :: 0 <= k < |nodes| ==> nodes[k] < |dirs|
    requires ParentsVisited(dirs, nodes, i)
    requires var kids := dirs[nodes[i]].directories;
      forall k :: 0 <= k < |kids| ==> kids[k] < |dirs| && dirs[kids[k]].parent == Some(nodes[i])
    ensures ParentsVisited(dirs, nodes + dirs[nodes[i]].directories, i + 1)
  {
    var kids := dirs[nodes[i]].directories;
    var next := nodes + kids;
    assert next[..i + 1] == nodes[..i] + [nodes[i]];
    forall q | 1 <= q < |next|
      ensures dirs[next[q]].parent.Some? && dirs[next[q]].parent.value in next[..i + 1]
    {
      if q < |nodes| {
        assert next[q] == nodes[q];
      } else {
        assert next[q] == kids[q - |nodes|];
      }
    }
  }

  lemma VisitClosed(dirs: seq<Directory>, nodes: seq<nat>, i: nat)
    requires i < |nodes| && forall k :: 0 <= k < |nodes| ==> nodes[k] < |dirs|
    requires Closed(dirs, nodes, i)
    requires var kids := dirs[nodes[i]].directories;
      forall k :: 0 <= k < |kids| ==> kids[k] < |dirs|
    ensures Closed(dirs, nodes + dirs[nodes[i]].directories, i + 1)
  {
    var kids := dirs[nodes[i]].directories;
    var next := nodes + kids;
    forall j, k | 0 <= j < i + 1 && 0 <= k < |dirs[next[j]].directories|
      ensures dirs[next[j]].directories[k] in next
    {
      assert next[j] == nodes[j];
      if j == i {
        assert next[|nodes| + k] == kids[k];
      }
    }
  }

  /** When every queued directory is visited, the queue holds each directory exactly once. */
  lemma VisitDone(dirs: seq<Directory>, nodes: seq<nat>)
    requires ValidDirs(dirs) && Visiting(dirs, nodes, |nodes|)
    ensures |nodes| == |dirs| && forall d :: 0 <= d < |dirs| ==> d in nodes
    ensures SmallSum(dirs, nodes) == SmallTotal(dirs)
  {
    forall d | 0 <= d < |dirs|
      ensures d in nodes
    {
      AllReached(dirs, nodes, d);
    }
    CoverSum(dirs, nodes, |dirs|);
  }

  /**
   * The traversal from the root: each visited directory of size at most 100000 is
   * collected and its children are queued behind the rest; the collected sizes are added up.
   * Every directory is visited exactly once, so the sum is the one over the whole arena.
   */
  method SmallDirectories(dirs: seq<Directory>) returns (nodes: seq<nat>, found: seq<nat>, computed: nat)
    requires ValidDirs(dirs) && dirs != []
    ensures |nodes| == |dirs| && nodes[0] == 0 && Distinct(nodes)
    ensures forall k :: 0 <= k < |nodes| ==> nodes[k] < |dirs|
    ensures forall d :: 0 <= d < |dirs| ==> d in nodes
    ensures found == Small(dirs, nodes)
    ensures computed == SizeSum(dirs, found) == SmallTotal(dirs)
  {
    nodes := [0];
    found := [];
    var i := 0;
    while i < |nodes|
      invariant Visiting(dirs, nodes, i)
      invariant found == Small(dirs, nodes[..i])
      decreases |dirs| - i
    {
      var node := nodes[i];
      assert nodes[..i + 1][..i] == nodes[..i];
      if dirs[node].size <= SmallLimit {
        found := found + [node];
      }
      VisitStep(dirs, nodes, i);
      nodes := nodes + dirs[node].directories;
      i := i + 1;
    }
    assert nodes[..i] == nodes;
    VisitDone(dirs, nodes);
    computed := SizeTotal(dirs, found);
    SmallSizes(dirs, nodes);
  }

  /** The `reduce` that adds up the sizes of the collected directories. */
  method SizeTotal(dirs: seq<Directory>, found: seq<nat>) returns (computed: nat)
    requires forall k :: 0 <= k < |found| ==> found[k] < |dirs|
    ensures computed == SizeSum(dirs, found)
  {
    computed := 0;
    var k := 0;
    while k < |found|
      invariant 0 <= k <= |found| && computed == SizeSum(dirs, found[..k])
    {
      assert found[..k + 1][..k] == found[..k];
      computed := computed + dirs[found[k]].size;
      k := k + 1;
    }
    assert found[..k] == found;
  }

  // ---------------------------------------------------------------------------------
  // The program

  /**
   * The program on the text of its input: each row applied to a fresh cursor, then the
   * traversal from its root. A failed assertion ends it with `None`.
   */
  method Survey(text: string) returns (answer: Option<nat>)
    ensures answer == Answer(text)
  {
    var rows := Rows(text);
    var cursor := new Cursor();
    var i := 0;
    while i < |rows|
      invariant 0 <= i <= |rows| && cursor.Valid()
      invariant Run(Initial(), rows) == Run(cursor.Snapshot(), rows[i..])
    {
      ghost var before := cursor.Snapshot();
      assert rows[i..][1..] == rows[i + 1..];
      var ok := true;
      match ParseRow(rows[i]) {
        case CdRow(arg) =>
          ok := cursor.Cd(arg);
        case Pass =>
        case DirRow(name) =>
          ok := cursor.InsertFolder(name);
        case FileRow(size, name) =>
          var n := JsNumber(size);
          if n.None? {
            ok := false;
          } else {
            ok := cursor.InsertFile(name, n.value);
          }
      }
      assert ok == Step(before, rows[i]).Some?;
      if !ok {
        return None;
      }
      assert cursor.Snapshot() == Step(before, rows[i]).value;
      i := i + 1;
    }
    if cursor.root.None? {
      return None;
    }
    var nodes, found, computed := SmallDirectories(cursor.dirs);
    answer := Some(computed);
  }
}
