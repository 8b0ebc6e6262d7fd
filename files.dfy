/** An abstract filesystem: paths are sequences of segments (joining is
    concatenation), and the tree is a map from path to node. Only the
    operations the pipeline performs are modelled: `os.makedirs`,
    `shutil.rmtree`, `os.symlink`, `open(p, 'w')`, and the files a step's
    script leaves in its output directory. */
module Files {

  type Path = seq<string>

  datatype Node = Dir | File(text: string) | Link(target: Path)

  /** `p` is `q` or one of its ancestors. */
  predicate IsPrefix(p: Path, q: Path) {
    |p| <= |q| && q[..|p|] == p
  }

  /** `p` and its ancestors, without the empty path (the working directory). */
  function Prefixes(p: Path): set<Path> {
    set k | 1 <= k <= |p| :: p[..k]
  }

  /** `path.dirname`: the path without its last segment. */
  function Dirname(p: Path): (d: Path)
    ensures p != [] ==> d + [p[|p| - 1]] == p
  {
    if p == [] then [] else p[..|p| - 1]
  }

  /** Every ancestor of a node is a directory (the tree shape). */
  ghost predicate TreeShaped(nodes: map<Path, Node>) {
    forall q, k :: q in nodes && 1 <= k < |q| ==> q[..k] in nodes && nodes[q[..k]] == Dir
  }

  /** In a tree, nothing lies under a path that is absent. */
  lemma NothingUnderAbsent(nodes: map<Path, Node>, p: Path, q: Path)
    requires TreeShaped(nodes)
    requires p != [] && p !in nodes && q in nodes
    ensures !IsPrefix(p, q)
  {
    if |p| < |q| {
      assert q[..|p|] in nodes;
    } else {
      assert q[..|q|] == q;
    }
  }

  lemma PrefixOfPrefix(p: Path, q: Path, k: nat)
    requires k <= |q|
    ensures IsPrefix(p, q[..k]) ==> IsPrefix(p, q)
  {
    if |p| <= k {
      assert q[..k][..|p|] == q[..|p|];
    }
  }

  /** Whether `os.makedirs(p)` succeeds: `p` is absent and every ancestor
      that exists is a directory. */
  predicate CanMakeDirs(nodes: map<Path, Node>, p: Path) {
    p != [] && p !in nodes &&
    forall k :: 1 <= k < |p| && p[..k] in nodes ==> nodes[p[..k]] == Dir
  }

  /** Making a directory whose parent is a directory: it can be made
      exactly when it is absent, and it is then the only new node. */
  lemma MakeChildDir(nodes: map<Path, Node>, p: Path)
    requires TreeShaped(nodes) && |p| >= 2 && Dirname(p) in nodes && nodes[Dirname(p)] == Dir
    ensures CanMakeDirs(nodes, p) == (p !in nodes)
    ensures p !in nodes ==> (map q | q in Prefixes(p) && q !in nodes :: Dir) == map[p := Dir]
  {
    var parent := Dirname(p);
    forall k | 1 <= k < |p|
      ensures p[..k] in nodes && nodes[p[..k]] == Dir
    {
      if k < |parent| {
        assert p[..k] == parent[..k];
      } else {
        assert p[..k] == parent;
      }
    }
    assert p == p[..|p|];
  }

  /** Whether a new entry can be created at `p`: its parent exists as a
      directory (or is the working directory). */
  predicate ParentIsDir(nodes: map<Path, Node>, p: Path) {
    p != [] && (|p| == 1 || (Dirname(p) in nodes && nodes[Dirname(p)] == Dir))
  }

  /** The files `wrote` (name to content) as entries of the directory `dir`. */
  function Written(dir: Path, wrote: map<string, string>): (m: map<Path, Node>)
    ensures forall w :: w in wrote ==> dir + [w] in m && m[dir + [w]] == File(wrote[w])
    ensures forall q :: q in m ==> IsPrefix(dir, q) && |q| == |dir| + 1 && q[|dir|] in wrote
  {
    var keys := set w | w in wrote :: dir + [w];
    map q | q in keys :: File(wrote[q[|dir|]])
  }

  class FileSystem {
    var nodes: map<Path, Node>

    ghost predicate Valid()
      reads this
    {
      TreeShaped(nodes)
    }

    constructor (initial: map<Path, Node>)
      requires TreeShaped(initial)
      ensures Valid() && nodes == initial
    {
      nodes := initial;
    }

    /** `os.makedirs(p)`: creates `p` and its missing ancestors; raises when
        `p` exists or an ancestor is not a directory. */
    method MakeDirs(p: Path) returns (ok: bool)
      requires Valid()
      modifies this
      ensures Valid()
      ensures ok == CanMakeDirs(old(nodes), p)
      ensures ok ==> nodes == old(nodes) + map q | q in Prefixes(p) && q !in old(nodes) :: Dir
      ensures !ok ==> nodes == old(nodes)
    {
      ok := CanMakeDirs(nodes, p);
      if ok {
        var added := map q | q in Prefixes(p) && q !in nodes :: Dir;
        var n' := nodes + added;
        forall q, k | q in n' && 1 <= k < |q|
          ensures q[..k] in n' && n'[q[..k]] == Dir
        {
          if q in added {
            var j :| 1 <= j <= |p| && q == p[..j];
            assert q[..k] == p[..k];
            assert q[..k] in Prefixes(p);
          }
        }
        nodes := n';
      }
    }

    /** `shutil.rmtree(p)`: removes the directory `p` and everything under
        it; raises when `p` is not a directory. */
    method RemoveTree(p: Path) returns (ok: bool)
      requires Valid()
      modifies this
      ensures Valid()
      ensures ok == (p in old(nodes) && old(nodes)[p] == Dir)
      ensures ok ==> nodes == map q | q in old(nodes) && !IsPrefix(p, q) :: old(nodes)[q]
      ensures !ok ==> nodes == old(nodes)
    {
      ok := p in nodes && nodes[p] == Dir;
      if ok {
        var n' := map q | q in nodes && !IsPrefix(p, q) :: nodes[q];
        forall q, k | q in n' && 1 <= k < |q|
          ensures q[..k] in n' && n'[q[..k]] == Dir
        {
          PrefixOfPrefix(p, q, k);
        }
        nodes := n';
      }
    }

    /** `os.symlink(target, at)`: raises when `at` exists or its parent is
        not a directory. */
    method Symlink(target: Path, at: Path) returns (ok: bool)
      requires Valid()
      modifies this
      ensures Valid()
      ensures ok == (at !in old(nodes) && ParentIsDir(old(nodes), at))
      ensures nodes == if ok then old(nodes)[at := Link(target)] else old(nodes)
    {
      ok := at !in nodes && ParentIsDir(nodes, at);
      if ok {
        Extend(at, Link(target));
      }
    }

    /** `open(p, 'w')` followed by writing `text`: creates or truncates a
        regular file; raises when `p` is a directory or a link, or when its
        parent is not a directory. */
    method WriteFile(p: Path, text: string) returns (ok: bool)
      requires Valid()
      modifies this
      ensures Valid()
      ensures ok == ((p !in old(nodes) || old(nodes)[p].File?) && ParentIsDir(old(nodes), p))
      ensures nodes == if ok then old(nodes)[p := File(text)] else old(nodes)
    {
      ok := (p !in nodes || nodes[p].File?) && ParentIsDir(nodes, p);
      if ok {
        Extend(p, File(text));
      }
    }

    /** The files a step's script leaves in the directory `dir`, which was
        empty when the script started. */
    method ScriptWrites(dir: Path, wrote: map<string, string>)
      requires Valid() && dir in nodes && nodes[dir] == Dir
      requires forall q :: q in nodes && IsPrefix(dir, q) ==> q == dir
      modifies this
      ensures Valid()
      ensures nodes == old(nodes) + Written(dir, wrote)
    {
      var n' := nodes + Written(dir, wrote);
      forall q, k | q in n' && 1 <= k < |q|
        ensures q[..k] in n' && n'[q[..k]] == Dir
      {
        if q in Written(dir, wrote) {
          var w :| w in wrote && q == dir + [w];
          if k < |dir| {
            assert q[..k] == dir[..k];
          } else {
            assert q[..k] == dir;
          }
        }
        PrefixOfPrefix(dir, q, k);
      }
      nodes := n';
    }

    /** Adds or replaces a leaf whose parent is a directory. */
    method Extend(p: Path, n: Node)
      requires Valid() && ParentIsDir(nodes, p)
      requires p in nodes ==> n == Dir || nodes[p] != Dir
      modifies this
      ensures Valid()
      ensures nodes == old(nodes)[p := n]
    {
      var n' := nodes[p := n];
      forall q, k | q in n' && 1 <= k < |q|
        ensures q[..k] in n' && n'[q[..k]] == Dir
      {
        if q == p {
          assert q[..k] == Dirname(p)[..k];
          if k < |p| - 1 {
            assert Dirname(p)[..k] in nodes;
          }
        } else {
          assert q in nodes;
          assert q[..k] in nodes && nodes[q[..k]] == Dir;
        }
      }
      nodes := n';
    }
  }
}
