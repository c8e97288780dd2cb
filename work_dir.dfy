/**
 * The agent's private working directory and its recursive deletion: a
 * directory's entries are deleted, each by the same procedure, before the
 * directory itself; anything that is not a directory is just deleted.
 */
module WorkDir {
  import opened Wrappers

  /** A path as the list of names from the root of the working directory down. */
  type Path = seq<string>

  /** What lies at a path: a plain file, or a directory listing its entries in `listFiles()` order. */
  datatype Node = File(name: string) | Directory(name: string, children: seq<Node>)

  /** The paths deleted by `recursiveDelete` on node `n`, which lies in the directory at `parent`, in order. */
  function DeleteOrder(n: Node, parent: Path): seq<Path>
    decreases n, 1
  {
    match n
    case File(name) => [parent + [name]]
    case Directory(name, children) => DeleteAll(children, parent + [name]) + [parent + [name]]
  }

  /** The paths deleted by the loop over a directory's entries: each entry's deletions in turn. */
  function DeleteAll(children: seq<Node>, dir: Path): seq<Path>
    decreases children, 0
  {
    if |children| == 0 then [] else DeleteOrder(children[0], dir) + DeleteAll(children[1..], dir)
  }

  /**
   * `recursiveDelete(dir)` on the working directory: `onDisk` is what is
   * found at its path, `None` when nothing is, which `isDirectory()` treats
   * like a plain file: the path is deleted and nothing else.
   */
  function RecursiveDelete(dir: string, onDisk: Option<Node>): seq<Path>
  {
    match onDisk
    case None => [[dir]]
    case Some(n) => DeleteOrder(n, [])
  }

  /** `p` is the path of `n`, placed in the directory at `parent`, or of something below it. */
  predicate InTree(n: Node, parent: Path, p: Path)
    decreases n
  {
    || p == parent + [n.name]
    || (n.Directory? && exists i :: 0 <= i < |n.children| && InTree(n.children[i], parent + [n.name], p))
  }

  /** Entries of one directory have distinct names, at every level. */
  predicate WellFormed(n: Node)
    decreases n
  {
    n.Directory? ==>
      && (forall i, j :: 0 <= i < j < |n.children| ==> n.children[i].name != n.children[j].name)
      && (forall i :: 0 <= i < |n.children| ==> WellFormed(n.children[i]))
  }

  predicate NoDuplicates(s: seq<Path>)
  {
    forall i, j :: 0 <= i < j < |s| ==> s[i] != s[j]
  }

  /** `a` names a directory strictly above `b`. */
  predicate StrictPrefix(a: Path, b: Path)
  {
    |a| < |b| && b[..|a|] == a
  }

  /** Post-order: whatever lies below a path is deleted before the path itself. */
  predicate ChildrenFirst(s: seq<Path>)
  {
    forall i, j :: 0 <= i < |s| && 0 <= j < |s| && StrictPrefix(s[j], s[i]) ==> i < j
  }

  // ---------------------------------------------------------------------
  // Every node is deleted

  lemma {:induction false} DeleteAllMembers(children: seq<Node>, dir: Path)
    ensures forall p :: p in DeleteAll(children, dir) <==>
      exists i :: 0 <= i < |children| && p in DeleteOrder(children[i], dir)
    decreases children
  {
    if |children| > 0 {
      DeleteAllMembers(children[1..], dir);
      forall p | p in DeleteAll(children, dir)
        ensures exists i :: 0 <= i < |children| && p in DeleteOrder(children[i], dir)
      {
        if p !in DeleteOrder(children[0], dir) {
          assert p in DeleteAll(children[1..], dir);
          var i :| 0 <= i < |children[1..]| && p in DeleteOrder(children[1..][i], dir);
          assert p in DeleteOrder(children[i + 1], dir);
        }
      }
      forall p, i | 0 <= i < |children| && p in DeleteOrder(children[i], dir)
        ensures p in DeleteAll(children, dir)
      {
        if i > 0 {
          assert children[1..][i - 1] == children[i];
        }
      }
    }
  }

  /** Exactly the paths of the tree are deleted. */
  lemma {:induction false} DeleteOrderMembers(n: Node, parent: Path)
    ensures forall p :: p in DeleteOrder(n, parent) <==> InTree(n, parent, p)
    decreases n
  {
    if n.Directory? {
      var d := parent + [n.name];
      DeleteAllMembers(n.children, d);
      forall i | 0 <= i < |n.children| {
        DeleteOrderMembers(n.children[i], d);
      }
    }
  }

  /** Everything deleted for `n` lies at or below `n`'s own path. */
  lemma {:induction false} DeleteOrderUnder(n: Node, parent: Path)
    ensures forall p :: p in DeleteOrder(n, parent) ==> |p| > |parent| && p[..|parent| + 1] == parent + [n.name]
    decreases n, 1
  {
    if n.Directory? {
      var d := parent + [n.name];
      DeleteAllUnder(n.children, d);
      forall p | p in DeleteAll(n.children, d)
        ensures p[..|parent| + 1] == d
      {
        assert p[..|parent| + 1] == p[..|d|];
      }
    }
  }

  /** Everything deleted for a directory's entries lies below the directory. */
  lemma {:induction false} DeleteAllUnder(children: seq<Node>, dir: Path)
    ensures forall p :: p in DeleteAll(children, dir) ==> |p| > |dir| && p[..|dir|] == dir
    decreases children, 0
  {
    if |children| > 0 {
      DeleteOrderUnder(children[0], dir);
      DeleteAllUnder(children[1..], dir);
      forall p | p in DeleteOrder(children[0], dir)
        ensures p[..|dir|] == dir
      {
        assert p[..|dir|] == p[..|dir| + 1][..|dir|];
      }
    }
  }

  // ---------------------------------------------------------------------
  // Exactly once, children first

  lemma ConcatNoDuplicates(a: seq<Path>, b: seq<Path>)
    requires NoDuplicates(a) && NoDuplicates(b)
    requires forall x :: x in a ==> x !in b
    ensures NoDuplicates(a + b)
  {
    forall i, j | 0 <= i < j < |a + b|
      ensures (a + b)[i] != (a + b)[j]
    {
      if i < |a| && j >= |a| {
        assert (a + b)[i] in a && (a + b)[j] == b[j - |a|];
      }
    }
  }

  lemma ConcatChildrenFirst(a: seq<Path>, b: seq<Path>)
    requires ChildrenFirst(a) && ChildrenFirst(b)
    requires forall x, y :: x in a && y in b ==> !StrictPrefix(x, y)
    ensures ChildrenFirst(a + b)
  {
    var s := a + b;
    forall i, j | 0 <= i < |s| && 0 <= j < |s| && StrictPrefix(s[j], s[i])
      ensures i < j
    {
      if i >= |a| && j >= |a| {
        assert s[i] == b[i - |a|] && s[j] == b[j - |a|];
      }
    }
  }

  /** Two siblings' deletions never share a path, and neither lies above the other. */
  lemma SiblingsApart(c0: Node, c1: Node, dir: Path, x: Path, y: Path)
    requires c0.name != c1.name
    requires x in DeleteOrder(c0, dir) && y in DeleteOrder(c1, dir)
    ensures x != y && !StrictPrefix(x, y)
  {
    DeleteOrderUnder(c0, dir);
    DeleteOrderUnder(c1, dir);
    assert x[..|dir| + 1][|dir|] == c0.name;
    assert y[..|dir| + 1][|dir|] == c1.name;
  }

  lemma {:induction false} DeleteAllOnce(children: seq<Node>, dir: Path)
    requires forall i, j :: 0 <= i < j < |children| ==> children[i].name != children[j].name
    requires forall i :: 0 <= i < |children| ==> WellFormed(children[i])
    ensures NoDuplicates(DeleteAll(children, dir)) && ChildrenFirst(DeleteAll(children, dir))
    decreases children, 0
  {
    if |children| > 0 {
      var head := DeleteOrder(children[0], dir);
      var rest := DeleteAll(children[1..], dir);
      DeleteOrderOnce(children[0], dir);
      DeleteAllOnce(children[1..], dir);
      DeleteAllMembers(children[1..], dir);
      forall x, y | x in head && y in rest
        ensures x != y && !StrictPrefix(x, y)
      {
        var i :| 0 <= i < |children[1..]| && y in DeleteOrder(children[1..][i], dir);
        SiblingsApart(children[0], children[i + 1], dir, x, y);
      }
      ConcatNoDuplicates(head, rest);
      ConcatChildrenFirst(head, rest);
    }
  }

  /**
   * In a well-formed tree `recursiveDelete` deletes every path once, and
   * whatever lies below a directory before the directory itself.
   */
  lemma {:induction false} DeleteOrderOnce(n: Node, parent: Path)
    requires WellFormed(n)
    ensures NoDuplicates(DeleteOrder(n, parent)) && ChildrenFirst(DeleteOrder(n, parent))
    decreases n, 1
  {
    if n.Directory? {
      var d := parent + [n.name];
      var below := DeleteAll(n.children, d);
      DeleteAllOnce(n.children, d);
      DeleteAllMembers(n.children, d);
      forall x | x in below
        ensures x != d && !StrictPrefix(x, d)
      {
        var i :| 0 <= i < |n.children| && x in DeleteOrder(n.children[i], d);
        DeleteOrderUnder(n.children[i], d);
      }
      ConcatNoDuplicates(below, [d]);
      ConcatChildrenFirst(below, [d]);
    }
  }

  /**
   * `recursiveDelete` on the working directory deletes every path found
   * under it exactly once, whatever lies below a directory before the
   * directory, and the working directory itself last; when there is no
   * directory there, it only deletes the path itself.
   */
  lemma RecursiveDeleteMeaning(dir: string, onDisk: Option<Node>)
    requires onDisk.Some? ==> onDisk.value.name == dir && WellFormed(onDisk.value)
    ensures var r := RecursiveDelete(dir, onDisk);
      && (forall p :: p in r <==> if onDisk.Some? then InTree(onDisk.value, [], p) else p == [dir])
      && NoDuplicates(r) && ChildrenFirst(r)
      && |r| >= 1 && r[|r| - 1] == [dir]
  {
    if onDisk.Some? {
      DeleteOrderMembers(onDisk.value, []);
      DeleteOrderOnce(onDisk.value, []);
    }
  }
}
