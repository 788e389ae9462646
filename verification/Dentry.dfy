/**
 The namespace tree: directory entries linked by parent pointers and by each
 directory's set of children, plus the inode index, the entry counters and the
 used bytes that are kept beside it.

 A Ptr stands for the address of a dentry; addresses are handed out in order.
 A hard link is an entry of its own that points at the real file. A real file
 whose name has been removed while hard links remain is an orphan: it stays in
 the index and keeps its stale parent pointer.
 */
module Dentry {
  import opened Wrappers
  import opened Record

  type Ptr = nat

  datatype Entry = Entry(
    inode: int,
    name: string,
    parent: Option<Ptr>,
    children: map<string, Ptr>,
    src: Option<Ptr>,                 // the real file, for a hard link
    nlink: int,
    stat: Stat,
    link: string,                     // the target, for a symlink
    xattrs: seq<(string, string)>)

  type Heap = map<Ptr, Entry>

  datatype Fs = Fs(
    heap: Heap,
    top: Ptr,                         // next address
    root: Option<Ptr>,
    index: map<int, Ptr>,             // inode number to real dentry
    dirs: int,
    files: int,
    usedBytes: int)

  datatype Code =
    | Success | Invalid | Exists | NoEntry | NotDir | NotEmpty | Loop | NotPermitted | Overflow | NoData | NoSpace | NoMemory | Busy | Fault

  const EMPTY_FS := Fs(map[], 0, None, map[], 0, 0, 0)

  const RENAME_NOREPLACE := 1
  const RENAME_EXCHANGE := 2

  predicate IsDir(e: Entry) {
    e.stat.mode.kind == KIND_DIR
  }

  predicate IsLink(e: Entry) {
    e.stat.mode.hardLink
  }

  // ------------------------------------------------------------------ finding

  function FindChild(h: Heap, p: Ptr, name: string): (Code, Option<Ptr>)
    requires p in h
  {
    if !IsDir(h[p]) then (NotDir, None)
    else if name in h[p].children then (Success, Some(h[p].children[name]))
    else (NoEntry, None)
  }

  function FindMe(fs: Fs, parent: Option<Ptr>, name: string): (Code, Option<Ptr>)
    requires parent.Some? ==> parent.value in fs.heap
  {
    if parent.Some? then FindChild(fs.heap, parent.value, name)
    else if fs.root.None? then (if name == "" then NoEntry else Invalid, None)
    else if name == "" then (Success, fs.root)
    else (Invalid, None)
  }

  // ------------------------------------------------- the elementary changes

  function AddNlink(h: Heap, p: Ptr, n: int): Heap
    requires p in h
  {
    h[p := h[p].(nlink := h[p].nlink + n)]
  }

  /** A new dentry, not yet in any directory. */
  function Alloc(fs: Fs, e: Entry): Fs {
    fs.(heap := fs.heap[fs.top := e],
        top := fs.top + 1,
        index := if IsLink(e) then fs.index else fs.index[e.inode := fs.top],
        dirs := if IsDir(e) then fs.dirs + 1 else fs.dirs,
        files := if IsDir(e) then fs.files else fs.files + 1)
  }

  /** A new dentry together with the claim of a hard link on its file. */
  function Born(fs: Fs, e: Entry): Fs
    requires IsLink(e) ==> e.src.Some? && e.src.value in fs.heap
  {
    var fs1 := Alloc(fs, e);
    if IsLink(e) then fs1.(heap := AddNlink(fs1.heap, e.src.value, 1)) else fs1
  }

  /** Puts a dentry into a directory under a name, or makes it the root. */
  function Attach(fs: Fs, p: Ptr, parent: Option<Ptr>, name: string): Fs
    requires p in fs.heap && (parent.Some? ==> parent.value in fs.heap)
  {
    var h := fs.heap[p := fs.heap[p].(parent := parent, name := name)];
    if parent.None? then fs.(heap := h, root := Some(p))
    else
      var q := h[parent.value];
      fs.(heap := h[parent.value := q.(children := q.children[name := p], nlink := q.nlink + 1)])
  }

  /** Takes a dentry out of its directory, or clears the root. */
  function Detach(fs: Fs, p: Ptr): Fs
    requires p in fs.heap && (fs.heap[p].parent.Some? ==> fs.heap[p].parent.value in fs.heap)
  {
    var e := fs.heap[p];
    if e.parent.None? then fs.(root := None)
    else
      var q := fs.heap[e.parent.value];
      fs.(heap := fs.heap[e.parent.value := q.(children := q.children - {e.name}, nlink := q.nlink - 1)])
  }

  function Positive(n: int): int {
    if n > 0 then n else 0
  }

  /** A dentry leaves the heap and the counters; a real one also the index. */
  function Drop(fs: Fs, p: Ptr): Fs
    requires p in fs.heap
  {
    var e := fs.heap[p];
    fs.(heap := fs.heap - {p},
        index := if IsLink(e) then fs.index else fs.index - {e.inode},
        dirs := if IsDir(e) then fs.dirs - 1 else fs.dirs,
        files := if IsDir(e) then fs.files else fs.files - 1,
        usedBytes := if IsLink(e) then fs.usedBytes else fs.usedBytes - Positive(e.stat.alloc))
  }

  /** A real dentry loses one reference, and goes when it was the last. */
  function Release(fs: Fs, p: Ptr): Fs
    requires p in fs.heap
  {
    if fs.heap[p].nlink == 1 then Drop(fs, p) else fs.(heap := AddNlink(fs.heap, p, -1))
  }

  /** One name goes: a hard link is dropped together with its claim on the real
      file, a real dentry loses one reference. */
  function DoRemove(fs: Fs, p: Ptr): Fs
    requires p in fs.heap
    requires IsLink(fs.heap[p]) ==> fs.heap[p].src.Some? && fs.heap[p].src.value in fs.heap && fs.heap[p].src.value != p
  {
    var e := fs.heap[p];
    if IsLink(e) then Release(Drop(fs, p), e.src.value) else Release(fs, p)
  }

  ghost predicate CanRemove(fs: Fs, p: Ptr) {
    && p in fs.heap
    && (fs.heap[p].parent.Some? ==> fs.heap[p].parent.value in fs.heap)
    && (IsLink(fs.heap[p]) ==>
          fs.heap[p].src.Some? && fs.heap[p].src.value in fs.heap && fs.heap[p].src.value != p)
  }

  /** The tree without the name p. */
  function Removed(fs: Fs, p: Ptr): Fs
    requires CanRemove(fs, p)
  {
    DoRemove(Detach(fs, p), p)
  }

  // ------------------------------------------------------------- shape of the tree

  ghost predicate Attached(fs: Fs, p: Ptr)
    requires p in fs.heap
  {
    var e := fs.heap[p];
    || fs.root == Some(p)
    || (e.parent.Some? && e.parent.value in fs.heap && e.name in fs.heap[e.parent.value].children &&
        fs.heap[e.parent.value].children[e.name] == p)
  }

  /** A directory's child is live, in place, and points back at it. */
  ghost predicate ChildOk(h: Heap, loose: set<Ptr>, q: Ptr, name: string)
    requires q in h && name in h[q].children
  {
    var c := h[q].children[name];
    c in h && c !in loose && h[c].name == name && h[c].parent == Some(q) && IsDir(h[q])
  }

  /** Parent pointers and children are inverse. loose holds the dentries that
      are between two places in the middle of an operation; any other dentry
      that is in no directory is a real file. */
  ghost predicate Shape(fs: Fs, loose: set<Ptr>) {
    && (forall p :: p in fs.heap ==> p < fs.top)
    && loose <= fs.heap.Keys
    && (fs.root.Some? ==> fs.root.value in fs.heap && fs.root.value !in loose && fs.heap[fs.root.value].parent == None)
    && (forall q, name {:trigger ChildOk(fs.heap, loose, q, name)} ::
          q in fs.heap && name in fs.heap[q].children ==> ChildOk(fs.heap, loose, q, name))
    && (forall p {:trigger Attached(fs, p)} ::
          p in fs.heap && p !in loose && !Attached(fs, p) ==> !IsDir(fs.heap[p]) && !IsLink(fs.heap[p]))
  }

  lemma AllocShape(fs: Fs, loose: set<Ptr>, e: Entry)
    requires Shape(fs, loose) && e.children == map[]
    ensures Shape(Alloc(fs, e), loose + {fs.top})
  {
    var fs' := Alloc(fs, e);
    forall q, name | q in fs'.heap && name in fs'.heap[q].children
      ensures ChildOk(fs'.heap, loose + {fs.top}, q, name)
    {
      assert ChildOk(fs.heap, loose, q, name);
    }
    forall p | p in fs.heap && Attached(fs, p)
      ensures Attached(fs', p)
    {
    }
  }

  ghost predicate CanAttach(fs: Fs, p: Ptr, parent: Option<Ptr>, name: string) {
    && (parent.None? ==> fs.root.None?)
    && (parent.Some? ==>
          && parent.value in fs.heap && parent.value != p && IsDir(fs.heap[parent.value])
          && name !in fs.heap[parent.value].children)
  }

  lemma AttachChildren(fs: Fs, loose: set<Ptr>, p: Ptr, parent: Option<Ptr>, name: string, q: Ptr, n: string)
    requires Shape(fs, loose) && p in loose && CanAttach(fs, p, parent, name)
    requires q in fs.heap && n in Attach(fs, p, parent, name).heap[q].children
    ensures ChildOk(Attach(fs, p, parent, name).heap, loose - {p}, q, n)
  {
    if n in fs.heap[q].children {
      assert ChildOk(fs.heap, loose, q, n);
    }
  }

  lemma AttachAttached(fs: Fs, loose: set<Ptr>, p: Ptr, parent: Option<Ptr>, name: string, c: Ptr)
    requires Shape(fs, loose) && p in loose && CanAttach(fs, p, parent, name) && c in fs.heap
    requires c == p || Attached(fs, c)
    ensures Attached(Attach(fs, p, parent, name), c)
  {
  }

  lemma AttachShape(fs: Fs, loose: set<Ptr>, p: Ptr, parent: Option<Ptr>, name: string)
    requires Shape(fs, loose) && p in loose && CanAttach(fs, p, parent, name)
    ensures Shape(Attach(fs, p, parent, name), loose - {p})
  {
    var fs' := Attach(fs, p, parent, name);
    assert fs'.heap.Keys == fs.heap.Keys;
    forall q, n | q in fs'.heap && n in fs'.heap[q].children
      ensures ChildOk(fs'.heap, loose - {p}, q, n)
    {
      AttachChildren(fs, loose, p, parent, name, q, n);
    }
    forall c | c in fs'.heap && c !in loose - {p} && !Attached(fs', c)
      ensures !IsDir(fs'.heap[c]) && !IsLink(fs'.heap[c])
    {
      if c == p || Attached(fs, c) {
        AttachAttached(fs, loose, p, parent, name, c);
      }
    }
  }

  lemma DetachShape(fs: Fs, loose: set<Ptr>, p: Ptr)
    requires Shape(fs, loose) && p in fs.heap && p !in loose && Attached(fs, p)
    ensures fs.heap[p].parent.Some? ==> fs.heap[p].parent.value in fs.heap
    ensures Shape(Detach(fs, p), loose + {p})
  {
    var fs' := Detach(fs, p);
    forall q, name | q in fs'.heap && name in fs'.heap[q].children
      ensures ChildOk(fs'.heap, loose + {p}, q, name)
    {
      assert ChildOk(fs.heap, loose, q, name);
    }
    forall c | c in fs'.heap && c !in loose + {p} && !Attached(fs', c)
      ensures !IsDir(fs'.heap[c]) && !IsLink(fs'.heap[c])
    {
      assert Attached(fs, c) ==> Attached(fs', c);
    }
  }

  lemma DropShape(fs: Fs, loose: set<Ptr>, p: Ptr)
    requires Shape(fs, loose) && p in fs.heap && fs.heap[p].children == map[]
    requires p in loose || !Attached(fs, p)
    ensures Shape(Drop(fs, p), loose - {p})
  {
    var fs' := Drop(fs, p);
    forall q, name | q in fs'.heap && name in fs'.heap[q].children
      ensures ChildOk(fs'.heap, loose - {p}, q, name)
    {
      assert ChildOk(fs.heap, loose, q, name);
    }
    forall c | c in fs'.heap && c !in loose - {p} && !Attached(fs', c)
      ensures !IsDir(fs'.heap[c]) && !IsLink(fs'.heap[c])
    {
      assert Attached(fs, c) ==> Attached(fs', c);
    }
  }

  lemma NlinkShape(fs: Fs, loose: set<Ptr>, p: Ptr, n: int)
    requires Shape(fs, loose) && p in fs.heap
    ensures Shape(fs.(heap := AddNlink(fs.heap, p, n)), loose)
  {
    var fs' := fs.(heap := AddNlink(fs.heap, p, n));
    forall q, name | q in fs'.heap && name in fs'.heap[q].children
      ensures ChildOk(fs'.heap, loose, q, name)
    {
      assert ChildOk(fs.heap, loose, q, name);
    }
    forall c | c in fs.heap
      ensures Attached(fs', c) <==> Attached(fs, c)
    {
    }
  }

  // ------------------------------------------------------------- no cycles

  /** The walk up from path[0]: to the root, or to a loose dentry. */
  ghost predicate IsChain(h: Heap, loose: set<Ptr>, path: seq<Ptr>) {
    && path != []
    && (forall i :: 0 <= i < |path| ==> path[i] in h)
    && (forall i :: 0 <= i < |path| - 1 ==> path[i] !in loose && h[path[i]].parent == Some(path[i + 1]))
    && (path[|path| - 1] in loose || h[path[|path| - 1]].parent == None)
  }

  ghost predicate HasChain(h: Heap, loose: set<Ptr>, p: Ptr) {
    exists path :: IsChain(h, loose, path) && path[0] == p
  }

  /** Every directory reaches the root (or a loose dentry) by parent pointers. */
  ghost predicate Acyclic(fs: Fs, loose: set<Ptr>) {
    forall p {:trigger HasChain(fs.heap, loose, p)} :: p in fs.heap && IsDir(fs.heap[p]) ==> HasChain(fs.heap, loose, p)
  }

  lemma ChainEnds(h: Heap, loose: set<Ptr>, path: seq<Ptr>)
    requires IsChain(h, loose, path)
    ensures |path| > 1 <==> path[0] !in loose && h[path[0]].parent.Some?
    ensures |path| > 1 ==> h[path[0]].parent == Some(path[1])
  {
  }

  /** Parent pointers determine the chain. */
  lemma {:induction false} ChainUnique(h: Heap, loose: set<Ptr>, path1: seq<Ptr>, path2: seq<Ptr>)
    requires IsChain(h, loose, path1) && IsChain(h, loose, path2) && path1[0] == path2[0]
    ensures path1 == path2
  {
    ChainEnds(h, loose, path1);
    ChainEnds(h, loose, path2);
    if |path1| > 1 {
      ChainTail(h, loose, path1);
      ChainTail(h, loose, path2);
      ChainUnique(h, loose, path1[1..], path2[1..]);
    }
  }

  lemma ChainTail(h: Heap, loose: set<Ptr>, path: seq<Ptr>)
    requires IsChain(h, loose, path) && |path| > 1
    ensures IsChain(h, loose, path[1..]) && path == [path[0]] + path[1..]
  {
  }

  lemma AllocAcyclic(fs: Fs, loose: set<Ptr>, e: Entry)
    requires Shape(fs, loose) && Acyclic(fs, loose)
    ensures Acyclic(Alloc(fs, e), loose + {fs.top})
  {
    var fs' := Alloc(fs, e);
    forall p | p in fs'.heap && IsDir(fs'.heap[p])
      ensures HasChain(fs'.heap, loose + {fs.top}, p)
    {
      if p == fs.top {
        assert IsChain(fs'.heap, loose + {fs.top}, [p]);
      } else {
        assert HasChain(fs.heap, loose, p);
        var path :| IsChain(fs.heap, loose, path) && path[0] == p;
        assert IsChain(fs'.heap, loose + {fs.top}, path);
      }
    }
  }

  lemma {:induction false} CutChain(h: Heap, loose: set<Ptr>, p: Ptr, path: seq<Ptr>)
    requires IsChain(h, loose, path)
    ensures HasChain(h, loose + {p}, path[0])
  {
    if path[0] == p || |path| == 1 {
      assert IsChain(h, loose + {p}, [path[0]]);
    } else {
      ChainTail(h, loose, path);
      CutChain(h, loose, p, path[1..]);
      var rest :| IsChain(h, loose + {p}, rest) && rest[0] == path[1];
      assert IsChain(h, loose + {p}, [path[0]] + rest);
    }
  }

  ghost predicate SameParents(h: Heap, h': Heap) {
    && h.Keys == h'.Keys
    && (forall p :: p in h ==> h'[p].parent == h[p].parent && IsDir(h'[p]) == IsDir(h[p]))
  }

  lemma SameParentsAcyclic(fs: Fs, fs': Fs, loose: set<Ptr>)
    requires Acyclic(fs, loose) && SameParents(fs.heap, fs'.heap)
    ensures Acyclic(fs', loose)
  {
    forall p | p in fs'.heap && IsDir(fs'.heap[p])
      ensures HasChain(fs'.heap, loose, p)
    {
      assert HasChain(fs.heap, loose, p);
      var path :| IsChain(fs.heap, loose, path) && path[0] == p;
      assert IsChain(fs'.heap, loose, path);
    }
  }

  lemma DetachAcyclic(fs: Fs, loose: set<Ptr>, p: Ptr)
    requires Shape(fs, loose) && Acyclic(fs, loose) && p in fs.heap && p !in loose && Attached(fs, p)
    ensures fs.heap[p].parent.Some? ==> fs.heap[p].parent.value in fs.heap
    ensures Acyclic(Detach(fs, p), loose + {p})
  {
    forall q | q in fs.heap && IsDir(fs.heap[q])
      ensures HasChain(fs.heap, loose + {p}, q)
    {
      assert HasChain(fs.heap, loose, q);
      var path :| IsChain(fs.heap, loose, path) && path[0] == q;
      CutChain(fs.heap, loose, p, path);
    }
    SameParentsAcyclic(fs, Detach(fs, p), loose + {p});
  }

  /** Hooking p up under a directory that is not below p extends every chain
      that ended at p. */
  lemma AttachAcyclic(fs: Fs, loose: set<Ptr>, p: Ptr, parent: Option<Ptr>, name: string, up: seq<Ptr>)
    requires Acyclic(fs, loose) && p in fs.heap && p in loose && CanAttach(fs, p, parent, name)
    requires parent.Some? ==> IsChain(fs.heap, loose, up) && up[0] == parent.value && p !in up
    ensures Acyclic(Attach(fs, p, parent, name), loose - {p})
  {
    var fs' := Attach(fs, p, parent, name);
    var loose' := loose - {p};
    forall q | q in fs'.heap && IsDir(fs'.heap[q])
      ensures HasChain(fs'.heap, loose', q)
    {
      assert q in fs.heap && IsDir(fs.heap[q]);
      assert HasChain(fs.heap, loose, q);
      var path :| IsChain(fs.heap, loose, path) && path[0] == q;
      if path[|path| - 1] != p {
        assert IsChain(fs'.heap, loose', path);
      } else if parent.None? {
        assert IsChain(fs'.heap, loose', path);
      } else {
        assert IsChain(fs'.heap, loose', up);
        JoinChains(fs'.heap, loose', path, up);
      }
    }
  }

  lemma JoinChains(h: Heap, loose: set<Ptr>, path: seq<Ptr>, up: seq<Ptr>)
    requires IsChain(h, loose, up) && path != []
    requires forall i :: 0 <= i < |path| ==> path[i] in h && path[i] !in loose
    requires forall i :: 0 <= i < |path| - 1 ==> h[path[i]].parent == Some(path[i + 1])
    requires h[path[|path| - 1]].parent == Some(up[0])
    ensures HasChain(h, loose, path[0])
  {
    var all := path + up;
    forall i | 0 <= i < |all| - 1
      ensures all[i] !in loose && h[all[i]].parent == Some(all[i + 1])
    {
      if i >= |path| {
        assert all[i] == up[i - |path|] && all[i + 1] == up[i + 1 - |path|];
      }
    }
    assert all[|all| - 1] == up[|up| - 1];
    assert IsChain(h, loose, all) && all[0] == path[0];
  }

  /** On a well-shaped tree a chain that starts at a directory stays on
      directories, and each step goes to a real parent. */
  lemma {:induction false} ChainOfDirs(fs: Fs, loose: set<Ptr>, path: seq<Ptr>)
    requires Shape(fs, loose) && IsChain(fs.heap, loose, path) && IsDir(fs.heap[path[0]])
    ensures forall i :: 0 <= i < |path| ==> IsDir(fs.heap[path[i]])
    ensures forall i :: 0 < i < |path| ==> fs.heap[path[i]].children != map[]
  {
    if |path| > 1 {
      assert path[0] !in loose && Attached(fs, path[0]);
      var e := fs.heap[path[0]];
      assert e.name in fs.heap[path[1]].children;
      assert ChildOk(fs.heap, loose, path[1], e.name);
      ChainTail(fs.heap, loose, path);
      ChainOfDirs(fs, loose, path[1..]);
      forall i | 0 < i < |path|
        ensures IsDir(fs.heap[path[i]]) && fs.heap[path[i]].children != map[]
      {
        assert path[i] == path[1..][i - 1];
      }
    }
  }

  lemma DropAcyclic(fs: Fs, loose: set<Ptr>, p: Ptr)
    requires Shape(fs, loose) && Acyclic(fs, loose) && p in fs.heap && fs.heap[p].children == map[]
    ensures Acyclic(Drop(fs, p), loose - {p})
  {
    var fs' := Drop(fs, p);
    forall q | q in fs'.heap && IsDir(fs'.heap[q])
      ensures HasChain(fs'.heap, loose - {p}, q)
    {
      assert q in fs.heap && q != p;
      assert HasChain(fs.heap, loose, q);
      var path :| IsChain(fs.heap, loose, path) && path[0] == q;
      ChainOfDirs(fs, loose, path);
      assert p !in path;
      assert IsChain(fs'.heap, loose - {p}, path);
    }
  }
}
