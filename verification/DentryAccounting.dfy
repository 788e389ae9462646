/**
 Link counts, entry counters, the inode index and the used bytes of a
 namespace, and how each elementary change of the tree keeps them exact.
 */
module DentryAccounting {
  import opened Wrappers
  import opened Record
  import opened Dentry

  // ------------------------------------------------------------------- sums

  ghost function Sum(n: nat, f: nat -> int): int {
    if n == 0 then 0 else Sum(n - 1, f) + f(n - 1)
  }

  lemma {:induction false} SumSame(n: nat, f: nat -> int, g: nat -> int)
    requires forall i :: 0 <= i < n ==> f(i) == g(i)
    ensures Sum(n, f) == Sum(n, g)
  {
    if n > 0 {
      SumSame(n - 1, f, g);
    }
  }

  lemma {:induction false} SumChange(n: nat, f: nat -> int, g: nat -> int, k: nat)
    requires k < n && forall i :: 0 <= i < n && i != k ==> f(i) == g(i)
    ensures Sum(n, g) == Sum(n, f) + g(k) - f(k)
  {
    if k == n - 1 {
      SumSame(n - 1, f, g);
    } else {
      SumChange(n - 1, f, g, k);
    }
  }

  lemma {:induction false} SumAtLeast(n: nat, f: nat -> int, k: nat)
    requires k < n && forall i :: 0 <= i < n ==> f(i) >= 0
    ensures Sum(n, f) >= f(k)
  {
    if k == n - 1 {
      SumNonNegative(n - 1, f);
    } else {
      SumAtLeast(n - 1, f, k);
    }
  }

  lemma {:induction false} SumNonNegative(n: nat, f: nat -> int)
    requires forall i :: 0 <= i < n ==> f(i) >= 0
    ensures Sum(n, f) >= 0
  {
    if n > 0 {
      SumNonNegative(n - 1, f);
    }
  }

  // ---------------------------------------------------------------- weights

  ghost function LinkWeight(h: Heap, p: Ptr): nat -> int {
    q => if q in h && IsLink(h[q]) && h[q].src == Some(p) then 1 else 0
  }

  ghost function DirWeight(h: Heap): nat -> int {
    q => if q in h && IsDir(h[q]) then 1 else 0
  }

  ghost function FileWeight(h: Heap): nat -> int {
    q => if q in h && !IsDir(h[q]) then 1 else 0
  }

  ghost function AllocWeight(h: Heap): nat -> int {
    q => if q in h && !IsLink(h[q]) then h[q].stat.alloc else 0
  }

  /** How many hard links point at p. */
  ghost function LinksTo(fs: Fs, p: Ptr): int {
    Sum(fs.top, LinkWeight(fs.heap, p))
  }

  // ------------------------------------------------------------- invariants

  /** A hard link points at a live, real, non-directory dentry. */
  ghost predicate LinkOk(h: Heap, p: Ptr)
    requires p in h
  {
    if IsLink(h[p]) then
      && !IsDir(h[p]) && h[p].src.Some? && h[p].src.value in h
      && !IsLink(h[h[p].src.value]) && !IsDir(h[h[p].src.value])
    else h[p].src.None?
  }

  ghost predicate Linked(fs: Fs) {
    forall p {:trigger LinkOk(fs.heap, p)} :: p in fs.heap ==> LinkOk(fs.heap, p)
  }

  /** The index holds exactly the real dentries, each under its inode. */
  ghost predicate Indexed(fs: Fs) {
    && (forall i :: i in fs.index ==>
          fs.index[i] in fs.heap && !IsLink(fs.heap[fs.index[i]]) && fs.heap[fs.index[i]].inode == i)
    && (forall p {:trigger HasKey(fs, p)} :: p in fs.heap ==> HasKey(fs, p))
    && 0 !in fs.index
  }

  ghost predicate HasKey(fs: Fs, p: Ptr)
    requires p in fs.heap
  {
    !IsLink(fs.heap[p]) ==> fs.heap[p].inode in fs.index && fs.index[fs.heap[p].inode] == p
  }

  ghost function Names(fs: Fs, loose: set<Ptr>, p: Ptr): int
    requires p in fs.heap
  {
    if p in loose || Attached(fs, p) then 1 else 0
  }

  /** A directory counts itself and its children, a real file its own name (if
      it still has one) and its hard links, a hard link only itself. */
  ghost predicate NlinkOk(fs: Fs, loose: set<Ptr>, p: Ptr)
    requires p in fs.heap
  {
    var e := fs.heap[p];
    if IsLink(e) then e.nlink == 1
    else if IsDir(e) then e.nlink == 1 + |e.children|
    else e.nlink == Names(fs, loose, p) + LinksTo(fs, p) && e.nlink > 0
  }

  ghost predicate AllNlinks(fs: Fs, loose: set<Ptr>) {
    forall p {:trigger NlinkOk(fs, loose, p)} :: p in fs.heap ==> NlinkOk(fs, loose, p)
  }

  ghost predicate Counted(fs: Fs) {
    && fs.dirs == Sum(fs.top, DirWeight(fs.heap))
    && fs.files == Sum(fs.top, FileWeight(fs.heap))
  }

  /** By how much the used bytes differ from what the files hold. */
  ghost function Drift(fs: Fs): int {
    fs.usedBytes - Sum(fs.top, AllocWeight(fs.heap))
  }

  // --------------------------------------------- who is in a directory, after a change

  lemma AllocAttached(fs: Fs, loose: set<Ptr>, e: Entry, c: Ptr)
    requires Shape(fs, loose) && e.children == map[] && c in fs.heap
    ensures Attached(Alloc(fs, e), c) <==> Attached(fs, c)
  {
  }

  lemma NlinkAttached(fs: Fs, p: Ptr, n: int, c: Ptr)
    requires p in fs.heap && c in fs.heap
    ensures Attached(fs.(heap := AddNlink(fs.heap, p, n)), c) <==> Attached(fs, c)
  {
  }

  lemma DetachAttached(fs: Fs, loose: set<Ptr>, p: Ptr, c: Ptr)
    requires Shape(fs, loose) && p in fs.heap && p !in loose && Attached(fs, p) && c in fs.heap
    ensures fs.heap[p].parent.Some? ==> fs.heap[p].parent.value in fs.heap
    ensures c in Detach(fs, p).heap && (Attached(Detach(fs, p), c) <==> c != p && Attached(fs, c))
  {
  }

  lemma AttachAttachedIff(fs: Fs, loose: set<Ptr>, p: Ptr, parent: Option<Ptr>, name: string, c: Ptr)
    requires Shape(fs, loose) && p in loose && CanAttach(fs, p, parent, name) && c in fs.heap
    ensures Attached(Attach(fs, p, parent, name), c) <==> c == p || Attached(fs, c)
  {
  }

  lemma DropAttached(fs: Fs, loose: set<Ptr>, p: Ptr, c: Ptr)
    requires Shape(fs, loose) && p in fs.heap && fs.heap[p].children == map[] && c in fs.heap && c != p
    ensures Attached(Drop(fs, p), c) <==> Attached(fs, c)
  {
  }

  // ------------------------------------------------------ links to a dentry

  lemma LinksSame(fs: Fs, fs': Fs, p: Ptr)
    requires fs'.top == fs.top && fs'.heap.Keys == fs.heap.Keys
    requires forall q :: q in fs.heap ==> IsLink(fs'.heap[q]) == IsLink(fs.heap[q]) && fs'.heap[q].src == fs.heap[q].src
    ensures LinksTo(fs', p) == LinksTo(fs, p)
  {
    SumSame(fs.top, LinkWeight(fs.heap, p), LinkWeight(fs'.heap, p));
  }

  lemma LinksAlloc(fs: Fs, e: Entry, p: Ptr)
    requires forall q :: q in fs.heap ==> q < fs.top
    ensures LinksTo(Alloc(fs, e), p) == LinksTo(fs, p) + (if IsLink(e) && e.src == Some(p) then 1 else 0)
  {
    SumSame(fs.top, LinkWeight(fs.heap, p), LinkWeight(Alloc(fs, e).heap, p));
  }

  lemma LinksDrop(fs: Fs, q: Ptr, p: Ptr)
    requires q in fs.heap && q < fs.top
    ensures LinksTo(Drop(fs, q), p) == LinksTo(fs, p) - (if IsLink(fs.heap[q]) && fs.heap[q].src == Some(p) then 1 else 0)
  {
    SumChange(fs.top, LinkWeight(fs.heap, p), LinkWeight(Drop(fs, q).heap, p), q);
  }

  lemma NoLinksMeansNone(fs: Fs, p: Ptr, q: Ptr)
    requires LinksTo(fs, p) == 0 && q in fs.heap && q < fs.top && IsLink(fs.heap[q])
    ensures fs.heap[q].src != Some(p)
  {
    SumAtLeast(fs.top, LinkWeight(fs.heap, p), q);
  }

  lemma LinksNonNegative(fs: Fs, p: Ptr)
    ensures LinksTo(fs, p) >= 0
  {
    SumNonNegative(fs.top, LinkWeight(fs.heap, p));
  }

  // ----------------------------------------------------------- birth of a dentry

  ghost predicate Newborn(fs: Fs, e: Entry) {
    && e.children == map[] && e.nlink == 1 && e.stat.alloc == 0
    && (if IsLink(e) then
          && !IsDir(e) && e.src.Some? && e.src.value in fs.heap
          && !IsLink(fs.heap[e.src.value]) && !IsDir(fs.heap[e.src.value])
        else e.src.None? && e.inode !in fs.index && e.inode != 0)
  }

  lemma BornAttached(fs: Fs, loose: set<Ptr>, e: Entry, p: Ptr)
    requires Shape(fs, loose) && Newborn(fs, e) && p in fs.heap
    ensures p in Born(fs, e).heap && (Attached(Born(fs, e), p) <==> Attached(fs, p))
  {
    AllocAttached(fs, loose, e, p);
    if IsLink(e) {
      NlinkAttached(Alloc(fs, e), e.src.value, 1, p);
    }
  }

  lemma BornLinks(fs: Fs, e: Entry, p: Ptr)
    requires Newborn(fs, e) && forall q :: q in fs.heap ==> q < fs.top
    ensures LinksTo(Born(fs, e), p) == LinksTo(fs, p) + (if IsLink(e) && e.src == Some(p) then 1 else 0)
  {
    LinksAlloc(fs, e, p);
    LinksSame(Alloc(fs, e), Born(fs, e), p);
  }

  lemma BornNlink(fs: Fs, loose: set<Ptr>, e: Entry, p: Ptr)
    requires Shape(fs, loose) && Newborn(fs, e) && p in fs.heap && NlinkOk(fs, loose, p)
    requires IsLink(fs.heap[p]) || IsDir(fs.heap[p]) ==> !(IsLink(e) && e.src == Some(p))
    ensures NlinkOk(Born(fs, e), loose + {fs.top}, p)
  {
    BornAttached(fs, loose, e, p);
    BornLinks(fs, e, p);
  }

  lemma BornNlinkSelf(fs: Fs, loose: set<Ptr>, e: Entry)
    requires Shape(fs, loose) && Linked(fs) && Newborn(fs, e)
    ensures NlinkOk(Born(fs, e), loose + {fs.top}, fs.top)
  {
    NobodyLinksYet(fs, fs.top);
    BornLinks(fs, e, fs.top);
  }

  lemma BornNlinks(fs: Fs, loose: set<Ptr>, e: Entry)
    requires Shape(fs, loose) && AllNlinks(fs, loose) && Linked(fs) && Newborn(fs, e)
    ensures AllNlinks(Born(fs, e), loose + {fs.top})
  {
    BornNlinkSelf(fs, loose, e);
    forall p | p in fs.heap
      ensures NlinkOk(Born(fs, e), loose + {fs.top}, p)
    {
      BornNlink(fs, loose, e, p);
    }
  }

  lemma NobodyLinksYet(fs: Fs, p: Ptr)
    requires Linked(fs) && p !in fs.heap
    ensures LinksTo(fs, p) == 0
  {
    forall q | q in fs.heap
      ensures LinkOk(fs.heap, q)
    {
    }
    SumSame(fs.top, LinkWeight(fs.heap, p), _ => 0);
    SumZero(fs.top);
  }

  lemma {:induction false} SumZero(n: nat)
    ensures Sum(n, _ => 0) == 0
  {
    if n > 0 {
      SumZero(n - 1);
      SumSame(n - 1, _ => 0, _ => 0);
    }
  }

  // --------------------------------------------------- moving in and out of directories

  lemma ChildCount(m: map<string, Ptr>, name: string)
    requires name in m
    ensures |m - {name}| == |m| - 1
  {
    assert (m - {name}).Keys == m.Keys - {name};
  }

  lemma NlinkFrame(fs: Fs, fs': Fs, loose: set<Ptr>, loose': set<Ptr>, c: Ptr)
    requires c in fs.heap && c in fs'.heap && NlinkOk(fs, loose, c)
    requires fs'.heap[c].stat.mode == fs.heap[c].stat.mode
    requires if IsDir(fs.heap[c])
             then fs'.heap[c].nlink - fs.heap[c].nlink == |fs'.heap[c].children| - |fs.heap[c].children|
             else fs'.heap[c].nlink == fs.heap[c].nlink
    requires IsLink(fs.heap[c]) ==> !IsDir(fs.heap[c])
    requires Names(fs', loose', c) == Names(fs, loose, c) && LinksTo(fs', c) == LinksTo(fs, c)
    ensures NlinkOk(fs', loose', c)
  {
  }

  lemma DetachNlink(fs: Fs, loose: set<Ptr>, p: Ptr, c: Ptr)
    requires Shape(fs, loose) && p in fs.heap && p !in loose && Attached(fs, p)
    requires c in fs.heap
    ensures fs.heap[p].parent.Some? ==> fs.heap[p].parent.value in fs.heap
    ensures c in Detach(fs, p).heap
    ensures var e, e' := fs.heap[c], Detach(fs, p).heap[c];
      && e'.stat.mode == e.stat.mode
      && (if IsDir(e) then e'.nlink - e.nlink == |e'.children| - |e.children| else e'.nlink == e.nlink)
  {
    var e := fs.heap[p];
    if e.parent == Some(c) {
      ChildCount(fs.heap[c].children, e.name);
      assert ChildOk(fs.heap, loose, c, e.name);
    }
  }

  lemma DetachLinks(fs: Fs, p: Ptr, c: Ptr)
    requires p in fs.heap && (fs.heap[p].parent.Some? ==> fs.heap[p].parent.value in fs.heap)
    ensures LinksTo(Detach(fs, p), c) == LinksTo(fs, c)
  {
    LinksSame(fs, Detach(fs, p), c);
  }

  lemma DetachNlinkOk(fs: Fs, loose: set<Ptr>, p: Ptr, c: Ptr)
    requires Shape(fs, loose) && p in fs.heap && p !in loose && Attached(fs, p)
    requires c in fs.heap && NlinkOk(fs, loose, c) && (IsLink(fs.heap[c]) ==> !IsDir(fs.heap[c]))
    ensures fs.heap[p].parent.Some? ==> fs.heap[p].parent.value in fs.heap
    ensures c in Detach(fs, p).heap && NlinkOk(Detach(fs, p), loose + {p}, c)
  {
    DetachNlink(fs, loose, p, c);
    DetachAttached(fs, loose, p, c);
    DetachLinks(fs, p, c);
    NlinkFrame(fs, Detach(fs, p), loose, loose + {p}, c);
  }

  lemma DetachNlinks(fs: Fs, loose: set<Ptr>, p: Ptr)
    requires Shape(fs, loose) && AllNlinks(fs, loose) && Linked(fs) && p in fs.heap && p !in loose && Attached(fs, p)
    ensures fs.heap[p].parent.Some? ==> fs.heap[p].parent.value in fs.heap
    ensures AllNlinks(Detach(fs, p), loose + {p})
  {
    assert Detach(fs, p).heap.Keys == fs.heap.Keys;
    forall c | c in fs.heap
      ensures c in Detach(fs, p).heap && NlinkOk(Detach(fs, p), loose + {p}, c)
    {
      assert LinkOk(fs.heap, c) && NlinkOk(fs, loose, c);
      DetachNlinkOk(fs, loose, p, c);
    }
  }

  lemma AttachNlink(fs: Fs, p: Ptr, parent: Option<Ptr>, name: string, c: Ptr)
    requires p in fs.heap && CanAttach(fs, p, parent, name) && c in fs.heap
    ensures var e, e' := fs.heap[c], Attach(fs, p, parent, name).heap[c];
      && e'.stat.mode == e.stat.mode
      && (if IsDir(e) then e'.nlink - e.nlink == |e'.children| - |e.children| else e'.nlink == e.nlink)
  {
  }

  lemma AttachLinks(fs: Fs, p: Ptr, parent: Option<Ptr>, name: string, c: Ptr)
    requires p in fs.heap && (parent.Some? ==> parent.value in fs.heap)
    ensures LinksTo(Attach(fs, p, parent, name), c) == LinksTo(fs, c)
  {
    LinksSame(fs, Attach(fs, p, parent, name), c);
  }

  lemma AttachNlinkOk(fs: Fs, loose: set<Ptr>, p: Ptr, parent: Option<Ptr>, name: string, c: Ptr)
    requires Shape(fs, loose) && p in loose && CanAttach(fs, p, parent, name)
    requires c in fs.heap && NlinkOk(fs, loose, c) && (IsLink(fs.heap[c]) ==> !IsDir(fs.heap[c]))
    ensures NlinkOk(Attach(fs, p, parent, name), loose - {p}, c)
  {
    AttachNlink(fs, p, parent, name, c);
    AttachAttachedIff(fs, loose, p, parent, name, c);
    AttachLinks(fs, p, parent, name, c);
    NlinkFrame(fs, Attach(fs, p, parent, name), loose, loose - {p}, c);
  }

  lemma AttachNlinks(fs: Fs, loose: set<Ptr>, p: Ptr, parent: Option<Ptr>, name: string)
    requires Shape(fs, loose) && AllNlinks(fs, loose) && Linked(fs) && p in loose && CanAttach(fs, p, parent, name)
    ensures AllNlinks(Attach(fs, p, parent, name), loose - {p})
  {
    assert Attach(fs, p, parent, name).heap.Keys == fs.heap.Keys;
    forall c | c in fs.heap
      ensures NlinkOk(Attach(fs, p, parent, name), loose - {p}, c)
    {
      assert LinkOk(fs.heap, c) && NlinkOk(fs, loose, c);
      AttachNlinkOk(fs, loose, p, parent, name, c);
    }
  }

  // -------------------------------------------------------------------- removal

  /** All link counts are right, except that x carries one reference too many. */
  ghost predicate OneTooMany(fs: Fs, loose: set<Ptr>, x: Ptr) {
    && (forall p {:trigger NlinkOk(fs, loose, p)} :: p in fs.heap && p != x ==> NlinkOk(fs, loose, p))
    && x in fs.heap && !IsLink(fs.heap[x])
    && fs.heap[x].nlink == 1 + (if IsDir(fs.heap[x]) then |fs.heap[x].children| else Names(fs, loose, x) + LinksTo(fs, x))
  }

  lemma DropNlinks(fs: Fs, shaped: set<Ptr>, loose: set<Ptr>, x: Ptr)
    requires Shape(fs, shaped) && OneTooMany(fs, loose, x) && fs.heap[x].children == map[]
    ensures AllNlinks(Drop(fs, x), loose)
  {
    var fs' := Drop(fs, x);
    forall c | c in fs'.heap
      ensures NlinkOk(fs', loose, c)
    {
      assert c in fs.heap && NlinkOk(fs, loose, c);
      DropAttached(fs, shaped, x, c);
      LinksDrop(fs, x, c);
    }
  }

  lemma LowerNlinks(fs: Fs, loose: set<Ptr>, x: Ptr)
    requires OneTooMany(fs, loose, x) && fs.heap[x].nlink != 1 && !IsDir(fs.heap[x])
    ensures AllNlinks(fs.(heap := AddNlink(fs.heap, x, -1)), loose)
  {
    var fs' := fs.(heap := AddNlink(fs.heap, x, -1));
    LinksNonNegative(fs, x);
    forall c | c in fs'.heap
      ensures NlinkOk(fs', loose, c)
    {
      assert c != x ==> NlinkOk(fs, loose, c);
      NlinkAttached(fs, x, -1, c);
      LinksSame(fs, fs', c);
    }
  }

  // ------------------------------------------- links, index, counters and space

  /** The change touches names, directories and link counts only. */
  ghost predicate SameEntries(fs: Fs, fs': Fs) {
    && fs'.top == fs.top && fs'.index == fs.index
    && fs'.dirs == fs.dirs && fs'.files == fs.files && fs'.usedBytes == fs.usedBytes
    && fs'.heap.Keys == fs.heap.Keys
    && (forall p :: p in fs.heap ==>
          fs'.heap[p].inode == fs.heap[p].inode && fs'.heap[p].stat == fs.heap[p].stat && fs'.heap[p].src == fs.heap[p].src)
  }

  ghost predicate Books(fs: Fs) {
    Linked(fs) && Indexed(fs) && Counted(fs)
  }

  lemma SameEntriesLinked(fs: Fs, fs': Fs)
    requires SameEntries(fs, fs') && Linked(fs)
    ensures Linked(fs')
  {
    forall p | p in fs'.heap
      ensures LinkOk(fs'.heap, p)
    {
      assert LinkOk(fs.heap, p);
    }
  }

  lemma SameEntriesIndexed(fs: Fs, fs': Fs)
    requires SameEntries(fs, fs') && Indexed(fs)
    ensures Indexed(fs')
  {
    forall p | p in fs'.heap
      ensures HasKey(fs', p)
    {
      assert HasKey(fs, p);
    }
  }

  lemma SameEntriesBooks(fs: Fs, fs': Fs)
    requires SameEntries(fs, fs') && Books(fs)
    ensures Books(fs')
  {
    SameEntriesLinked(fs, fs');
    SameEntriesIndexed(fs, fs');
    SumSame(fs.top, DirWeight(fs.heap), DirWeight(fs'.heap));
    SumSame(fs.top, FileWeight(fs.heap), FileWeight(fs'.heap));
  }

  lemma SameEntriesDrift(fs: Fs, fs': Fs)
    requires SameEntries(fs, fs')
    ensures Drift(fs') == Drift(fs)
  {
    SumSame(fs.top, AllocWeight(fs.heap), AllocWeight(fs'.heap));
  }

  lemma AllocCounted(fs: Fs, e: Entry)
    requires Counted(fs) && forall p :: p in fs.heap ==> p < fs.top
    ensures Counted(Alloc(fs, e))
  {
    SumSame(fs.top, DirWeight(fs.heap), DirWeight(Alloc(fs, e).heap));
    SumSame(fs.top, FileWeight(fs.heap), FileWeight(Alloc(fs, e).heap));
  }

  lemma AllocLinked(fs: Fs, e: Entry)
    requires Linked(fs) && Newborn(fs, e) && forall p :: p in fs.heap ==> p < fs.top
    ensures Linked(Alloc(fs, e))
  {
    forall p | p in Alloc(fs, e).heap
      ensures LinkOk(Alloc(fs, e).heap, p)
    {
      if p != fs.top {
        assert LinkOk(fs.heap, p);
      }
    }
  }

  lemma AllocIndexed(fs: Fs, e: Entry)
    requires Indexed(fs) && Newborn(fs, e) && forall p :: p in fs.heap ==> p < fs.top
    ensures Indexed(Alloc(fs, e))
  {
    forall p | p in Alloc(fs, e).heap
      ensures HasKey(Alloc(fs, e), p)
    {
      if p != fs.top {
        assert HasKey(fs, p);
      }
    }
  }

  lemma BornSame(fs: Fs, e: Entry)
    requires Newborn(fs, e)
    ensures SameEntries(Alloc(fs, e), Born(fs, e))
  {
  }

  lemma BornBooks(fs: Fs, loose: set<Ptr>, e: Entry)
    requires Shape(fs, loose) && Books(fs) && Newborn(fs, e)
    ensures Books(Born(fs, e))
  {
    AllocCounted(fs, e);
    AllocLinked(fs, e);
    AllocIndexed(fs, e);
    BornSame(fs, e);
    SameEntriesBooks(Alloc(fs, e), Born(fs, e));
  }

  lemma AllocDrift(fs: Fs, e: Entry)
    requires e.stat.alloc == 0 && forall p :: p in fs.heap ==> p < fs.top
    ensures Drift(Alloc(fs, e)) == Drift(fs)
  {
    var fs1 := Alloc(fs, e);
    SumSame(fs.top, AllocWeight(fs.heap), AllocWeight(fs1.heap));
    assert Sum(fs1.top, AllocWeight(fs1.heap)) == Sum(fs.top, AllocWeight(fs1.heap)) + AllocWeight(fs1.heap)(fs.top);
  }

  lemma BornDrift(fs: Fs, loose: set<Ptr>, e: Entry)
    requires Shape(fs, loose) && Newborn(fs, e)
    ensures Drift(Born(fs, e)) == Drift(fs)
  {
    AllocDrift(fs, e);
    BornSame(fs, e);
    SameEntriesDrift(Alloc(fs, e), Born(fs, e));
  }

  lemma DropCounted(fs: Fs, p: Ptr)
    requires Counted(fs) && p in fs.heap && p < fs.top
    ensures Counted(Drop(fs, p))
  {
    SumChange(fs.top, DirWeight(fs.heap), DirWeight(Drop(fs, p).heap), p);
    SumChange(fs.top, FileWeight(fs.heap), FileWeight(Drop(fs, p).heap), p);
  }

  lemma DropIndexed(fs: Fs, p: Ptr)
    requires Indexed(fs) && p in fs.heap
    ensures Indexed(Drop(fs, p))
  {
    var fs' := Drop(fs, p);
    forall q | q in fs'.heap
      ensures HasKey(fs', q)
    {
      assert HasKey(fs, q) && HasKey(fs, p);
    }
    forall i | i in fs'.index
      ensures fs'.index[i] in fs'.heap
    {
      assert fs.index[i] in fs.heap && !IsLink(fs.heap[fs.index[i]]) && fs.heap[fs.index[i]].inode == i;
    }
  }

  lemma DropBooks(fs: Fs, p: Ptr)
    requires Books(fs) && p in fs.heap && forall q :: q in fs.heap ==> q < fs.top
    requires !IsLink(fs.heap[p]) ==> LinksTo(fs, p) == 0
    ensures Books(Drop(fs, p))
  {
    var fs' := Drop(fs, p);
    DropCounted(fs, p);
    DropIndexed(fs, p);
    forall q | q in fs'.heap
      ensures LinkOk(fs'.heap, q)
    {
      assert LinkOk(fs.heap, q) && LinkOk(fs.heap, p);
      if IsLink(fs.heap[q]) && !IsLink(fs.heap[p]) {
        NoLinksMeansNone(fs, p, q);
      }
    }
  }

  /** Deleting a dentry gives its space back, but only a positive amount of it:
      what a file is below zero goes unaccounted. */
  lemma DropDrift(fs: Fs, p: Ptr)
    requires p in fs.heap && p < fs.top
    ensures var e := fs.heap[p];
      Drift(Drop(fs, p)) == Drift(fs) + (if IsLink(e) || e.stat.alloc >= 0 then 0 else e.stat.alloc)
  {
    SumChange(fs.top, AllocWeight(fs.heap), AllocWeight(Drop(fs, p).heap), p);
  }

  lemma DetachSame(fs: Fs, p: Ptr)
    requires p in fs.heap && (fs.heap[p].parent.Some? ==> fs.heap[p].parent.value in fs.heap)
    ensures SameEntries(fs, Detach(fs, p))
  {
  }

  lemma AttachSame(fs: Fs, p: Ptr, parent: Option<Ptr>, name: string)
    requires p in fs.heap && (parent.Some? ==> parent.value in fs.heap)
    ensures SameEntries(fs, Attach(fs, p, parent, name))
  {
  }

  // --------------------------------------------------------- whole-tree invariant

  /** Everything but the space, with the dentries in loose between two places. */
  ghost predicate TreeOk(fs: Fs, loose: set<Ptr>) {
    Shape(fs, loose) && Acyclic(fs, loose) && AllNlinks(fs, loose) && Books(fs)
  }

  lemma BornTree(fs: Fs, loose: set<Ptr>, e: Entry, loose': set<Ptr>)
    requires TreeOk(fs, loose) && Newborn(fs, e) && loose' == loose + {fs.top}
    ensures TreeOk(Born(fs, e), loose')
  {
    AllocShape(fs, loose, e);
    AllocAcyclic(fs, loose, e);
    if IsLink(e) {
      NlinkShape(Alloc(fs, e), loose + {fs.top}, e.src.value, 1);
      SameParentsAcyclic(Alloc(fs, e), Born(fs, e), loose + {fs.top});
    }
    BornNlinks(fs, loose, e);
    BornBooks(fs, loose, e);
  }

  lemma DetachTree(fs: Fs, loose: set<Ptr>, p: Ptr, loose': set<Ptr>)
    requires TreeOk(fs, loose) && p in fs.heap && p !in loose && Attached(fs, p)
    requires loose' == loose + {p}
    ensures fs.heap[p].parent.Some? ==> fs.heap[p].parent.value in fs.heap
    ensures TreeOk(Detach(fs, p), loose')
    ensures !Attached(Detach(fs, p), p)
  {
    DetachAttached(fs, loose, p, p);
    DetachShape(fs, loose, p);
    DetachAcyclic(fs, loose, p);
    DetachNlinks(fs, loose, p);
    DetachSame(fs, p);
    SameEntriesBooks(fs, Detach(fs, p));
  }

  lemma AttachTree(fs: Fs, loose: set<Ptr>, p: Ptr, parent: Option<Ptr>, name: string, up: seq<Ptr>, loose': set<Ptr>)
    requires TreeOk(fs, loose) && p in loose && CanAttach(fs, p, parent, name)
    requires loose' == loose - {p}
    requires parent.Some? ==> IsChain(fs.heap, loose, up) && up[0] == parent.value && p !in up
    ensures TreeOk(Attach(fs, p, parent, name), loose')
  {
    AttachShape(fs, loose, p, parent, name);
    AttachAcyclic(fs, loose, p, parent, name, up);
    AttachNlinks(fs, loose, p, parent, name);
    AttachSame(fs, p, parent, name);
    SameEntriesBooks(fs, Attach(fs, p, parent, name));
  }

  // ------------------------------------------------------------ removing a name

  lemma OnlyDirsHaveChildren(fs: Fs, loose: set<Ptr>, p: Ptr)
    requires Shape(fs, loose) && p in fs.heap && !IsDir(fs.heap[p])
    ensures fs.heap[p].children == map[]
  {
    assert forall name :: name in fs.heap[p].children ==> ChildOk(fs.heap, loose, p, name);
  }

  lemma DirHasNoLinks(fs: Fs, p: Ptr)
    requires Linked(fs) && p in fs.heap && IsDir(fs.heap[p])
    ensures LinksTo(fs, p) == 0
  {
    forall q | q in fs.heap
      ensures LinkOk(fs.heap, q)
    {
    }
    SumSame(fs.top, LinkWeight(fs.heap, p), _ => 0);
    SumZero(fs.top);
  }

  lemma LooseFile(fs: Fs, p: Ptr)
    requires Shape(fs, {p}) && !IsDir(fs.heap[p]) && !IsLink(fs.heap[p])
    ensures Shape(fs, {})
  {
    forall q, name | q in fs.heap && name in fs.heap[q].children
      ensures ChildOk(fs.heap, {}, q, name)
    {
      assert ChildOk(fs.heap, {p}, q, name);
    }
  }

  lemma CutAtFile(fs: Fs, p: Ptr)
    requires Shape(fs, {p}) && Acyclic(fs, {p}) && !IsDir(fs.heap[p])
    ensures Acyclic(fs, {})
  {
    forall q | q in fs.heap && IsDir(fs.heap[q])
      ensures HasChain(fs.heap, {}, q)
    {
      assert HasChain(fs.heap, {p}, q);
      var path :| IsChain(fs.heap, {p}, path) && path[0] == q;
      ChainOfDirs(fs, {p}, path);
      assert IsChain(fs.heap, {}, path);
    }
  }

  lemma ReleaseLast(fs: Fs, loose: set<Ptr>, x: Ptr)
    requires loose <= {x} && Shape(fs, loose) && Acyclic(fs, loose) && OneTooMany(fs, {}, x) && Books(fs)
    requires fs.heap[x].children == map[] && fs.heap[x].nlink == 1
    requires x in loose || !Attached(fs, x)
    ensures TreeOk(Drop(fs, x), {})
  {
    LinksNonNegative(fs, x);
    if IsDir(fs.heap[x]) {
      DirHasNoLinks(fs, x);
    }
    DropShape(fs, loose, x);
    DropAcyclic(fs, loose, x);
    DropNlinks(fs, loose, {}, x);
    DropBooks(fs, x);
    assert loose - {x} == {};
  }

  lemma NlinkSame(fs: Fs, x: Ptr, n: int)
    requires x in fs.heap
    ensures SameEntries(fs, fs.(heap := AddNlink(fs.heap, x, n)))
    ensures SameParents(fs.heap, AddNlink(fs.heap, x, n))
  {
  }

  lemma ReleaseOne(fs: Fs, x: Ptr)
    requires Shape(fs, {}) && Acyclic(fs, {}) && OneTooMany(fs, {}, x) && Books(fs)
    requires fs.heap[x].nlink != 1 && !IsDir(fs.heap[x])
    ensures TreeOk(fs.(heap := AddNlink(fs.heap, x, -1)), {})
  {
    var fs' := fs.(heap := AddNlink(fs.heap, x, -1));
    LowerNlinks(fs, {}, x);
    NlinkShape(fs, {}, x, -1);
    NlinkSame(fs, x, -1);
    SameParentsAcyclic(fs, fs', {});
    SameEntriesBooks(fs, fs');
  }

  /** Giving up the reference that x carries too many: x goes when it was the
      last one, and otherwise stays, as a file without a name or in place. */
  lemma ReleaseTree(fs: Fs, loose: set<Ptr>, x: Ptr)
    requires loose <= {x} && Shape(fs, loose) && Acyclic(fs, loose) && OneTooMany(fs, {}, x) && Books(fs)
    requires fs.heap[x].children == map[]
    requires IsDir(fs.heap[x]) ==> !Attached(fs, x)
    ensures TreeOk(Release(fs, x), {})
  {
    LinksNonNegative(fs, x);
    if fs.heap[x].nlink == 1 {
      ReleaseLast(fs, loose, x);
    } else {
      assert !IsDir(fs.heap[x]);
      if loose != {} {
        assert loose == {x};
        LooseFile(fs, x);
        CutAtFile(fs, x);
      }
      ReleaseOne(fs, x);
    }
  }

  lemma RealTooMany(fs: Fs, p: Ptr)
    requires AllNlinks(fs, {p}) && p in fs.heap && !IsLink(fs.heap[p]) && !Attached(fs, p)
    ensures OneTooMany(fs, {}, p)
  {
    forall c | c in fs.heap && c != p
      ensures NlinkOk(fs, {}, c)
    {
      assert NlinkOk(fs, {p}, c);
    }
    assert NlinkOk(fs, {p}, p);
  }

  lemma DropLinkNlink(fs: Fs, p: Ptr, c: Ptr)
    requires Shape(fs, {p}) && IsLink(fs.heap[p]) && fs.heap[p].children == map[]
    requires c in fs.heap && c != p && fs.heap[p].src != Some(c) && NlinkOk(fs, {p}, c)
    ensures NlinkOk(Drop(fs, p), {}, c)
  {
    DropAttached(fs, {p}, p, c);
    LinksDrop(fs, p, c);
  }

  lemma DropLinkSource(fs: Fs, p: Ptr, s: Ptr)
    requires Shape(fs, {p}) && IsLink(fs.heap[p]) && fs.heap[p].children == map[]
    requires s in fs.heap && s != p && fs.heap[p].src == Some(s) && NlinkOk(fs, {p}, s)
    requires !IsLink(fs.heap[s]) && !IsDir(fs.heap[s])
    ensures Drop(fs, p).heap[s].nlink == 1 + Names(Drop(fs, p), {}, s) + LinksTo(Drop(fs, p), s)
  {
    DropAttached(fs, {p}, p, s);
    LinksDrop(fs, p, s);
  }

  lemma LinkTooMany(fs: Fs, p: Ptr)
    requires Shape(fs, {p}) && AllNlinks(fs, {p}) && IsLink(fs.heap[p]) && fs.heap[p].children == map[]
    requires LinkOk(fs.heap, p)
    ensures OneTooMany(Drop(fs, p), {}, fs.heap[p].src.value)
  {
    var s := fs.heap[p].src.value;
    forall c | c in Drop(fs, p).heap && c != s
      ensures NlinkOk(Drop(fs, p), {}, c)
    {
      assert NlinkOk(fs, {p}, c);
      DropLinkNlink(fs, p, c);
    }
    assert NlinkOk(fs, {p}, s);
    DropLinkSource(fs, p, s);
  }

  lemma RemoveLinkTree(fs: Fs, p: Ptr)
    requires TreeOk(fs, {p}) && IsLink(fs.heap[p]) && fs.heap[p].children == map[]
    ensures LinkOk(fs.heap, p) && fs.heap[p].src.value != p
    ensures TreeOk(Release(Drop(fs, p), fs.heap[p].src.value), {})
  {
    assert LinkOk(fs.heap, p);
    LinkTooMany(fs, p);
    DropShape(fs, {p}, p);
    DropAcyclic(fs, {p}, p);
    DropBooks(fs, p);
    assert {p} - {p} == {};
    var s := fs.heap[p].src.value;
    OnlyDirsHaveChildren(Drop(fs, p), {}, s);
    ReleaseTree(Drop(fs, p), {}, s);
  }

  lemma RemoveRealTree(fs: Fs, p: Ptr)
    requires TreeOk(fs, {p}) && !IsLink(fs.heap[p]) && !Attached(fs, p) && fs.heap[p].children == map[]
    ensures TreeOk(Release(fs, p), {})
  {
    RealTooMany(fs, p);
    ReleaseTree(fs, {p}, p);
  }

  lemma LinkSource(fs: Fs, p: Ptr)
    requires Linked(fs) && p in fs.heap && IsLink(fs.heap[p])
    ensures fs.heap[p].src.Some? && fs.heap[p].src.value in fs.heap && fs.heap[p].src.value != p
  {
    assert LinkOk(fs.heap, p);
  }

  lemma NotOwnParent(fs: Fs, loose: set<Ptr>, p: Ptr)
    requires Shape(fs, loose) && p in fs.heap && Attached(fs, p) && fs.heap[p].children == map[]
    ensures fs.heap[p].parent.Some? ==> fs.heap[p].parent.value in fs.heap && fs.heap[p].parent.value != p
  {
  }

  lemma DetachKeepsEntry(fs: Fs, p: Ptr)
    requires p in fs.heap && (fs.heap[p].parent.Some? ==> fs.heap[p].parent.value in fs.heap && fs.heap[p].parent.value != p)
    ensures Detach(fs, p).heap[p] == fs.heap[p]
  {
  }

  lemma RemovableEntry(fs: Fs, p: Ptr)
    requires Shape(fs, {}) && Linked(fs) && p in fs.heap && Attached(fs, p) && fs.heap[p].children == map[]
    ensures CanRemove(fs, p) && Detach(fs, p).heap[p] == fs.heap[p]
  {
    NotOwnParent(fs, {}, p);
    DetachKeepsEntry(fs, p);
    if IsLink(fs.heap[p]) {
      LinkSource(fs, p);
    }
  }

  lemma RemoveDetached(fs: Fs, p: Ptr)
    requires TreeOk(fs, {p}) && !Attached(fs, p) && fs.heap[p].children == map[]
    ensures IsLink(fs.heap[p]) ==>
              fs.heap[p].src.Some? && fs.heap[p].src.value in fs.heap && fs.heap[p].src.value != p
    ensures TreeOk(DoRemove(fs, p), {})
  {
    if IsLink(fs.heap[p]) {
      LinkSource(fs, p);
      RemoveLinkTree(fs, p);
    } else {
      RemoveRealTree(fs, p);
    }
  }

  /** Removing one name keeps the whole tree in order. */
  lemma RemoveTree(fs: Fs, p: Ptr)
    requires TreeOk(fs, {}) && p in fs.heap && Attached(fs, p) && fs.heap[p].children == map[]
    ensures CanRemove(fs, p) && TreeOk(Removed(fs, p), {})
  {
    RemovableEntry(fs, p);
    DetachTree(fs, {}, p, {p});
    RemoveDetached(Detach(fs, p), p);
  }
}
