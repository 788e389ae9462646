/**
 The tree as the server changes it: in place, one pointer or one child set at a
 time, undoing what was done when a step fails.
 */
module DentryTree {
  import opened Wrappers
  import opened Record
  import opened Dentry
  import opened DentryAccounting
  import opened DentryOps
  import opened RenameLaws

  // --------------------------------------------------------------- single changes

  function DelChild(h: Heap, q: Ptr, name: string): Heap
    requires q in h
  {
    h[q := h[q].(children := h[q].children - {name})]
  }

  /** Inserts a child, or replaces the child of that name. */
  function PutChild(h: Heap, q: Ptr, name: string, c: Ptr): Heap
    requires q in h
  {
    h[q := h[q].(children := h[q].children[name := c])]
  }

  function SetName(h: Heap, p: Ptr, name: string): Heap
    requires p in h
  {
    h[p := h[p].(name := name)]
  }

  function SetParent(h: Heap, p: Ptr, parent: Ptr): Heap
    requires p in h
  {
    h[p := h[p].(parent := Some(parent))]
  }

  // ------------------------------------------------- the steps of an exchange, as a whole

  /** Everything done to the child sets and the names. */
  ghost function ExchangeSteps(h: Heap, s: Ptr, sp: Ptr, sname: string, d: Ptr, dp: Ptr, dname: string): Heap
    requires s in h && sp in h && d in h && dp in h
  {
    var h1 := SetName(DelChild(h, sp, sname), s, dname);
    var h2 := SetName(PutChild(h1, dp, dname, s), d, sname);
    SetParent(SetParent(PutChild(h2, sp, sname, d), s, dp), d, sp)
  }

  ghost function ExchangeHalfway(h: Heap, s: Ptr, sp: Ptr, sname: string, d: Ptr, dp: Ptr, dname: string): Heap
    requires s in h && sp in h && d in h && dp in h
  {
    SetName(PutChild(SetName(DelChild(h, sp, sname), s, dname), dp, dname, s), d, sname)
  }

  lemma HalfwayAt(h: Heap, s: Ptr, sp: Ptr, sname: string, d: Ptr, dp: Ptr, dname: string, q: Ptr)
    requires s in h && sp in h && d in h && dp in h && s != d && q in h
    ensures var h' := ExchangeHalfway(h, s, sp, sname, d, dp, dname);
      h'.Keys == h.Keys && h'[q] == h[q].(name := if q == s then dname else if q == d then sname else h[q].name,
                                          children := h'[q].children)
  {
  }

  lemma StepsBody(fs: Fs, s: Ptr, sp: Ptr, d: Ptr, dp: Ptr, q: Ptr)
    requires InPlace(fs, s, sp) && InPlace(fs, d, dp) && s != d && q in fs.heap
    ensures var h := ExchangeSteps(fs.heap, s, sp, fs.heap[s].name, d, dp, fs.heap[d].name);
      && h.Keys == fs.heap.Keys && SameBody(fs.heap[q], h[q])
      && h[q].name == (if q == s then fs.heap[d].name else if q == d then fs.heap[s].name else fs.heap[q].name)
      && h[q].parent == (if q == s then Some(dp) else if q == d then Some(sp) else fs.heap[q].parent)
  {
    HalfwayAt(fs.heap, s, sp, fs.heap[s].name, d, dp, fs.heap[d].name, q);
    assert ExchangeSteps(fs.heap, s, sp, fs.heap[s].name, d, dp, fs.heap[d].name) ==
      SetParent(SetParent(PutChild(ExchangeHalfway(fs.heap, s, sp, fs.heap[s].name, d, dp, fs.heap[d].name), sp, fs.heap[s].name, d), s, dp), d, sp);
  }

  function HeapSlot(h: Heap, q: Ptr, name: string): Option<Ptr> {
    if q in h && name in h[q].children then Some(h[q].children[name]) else None
  }

  lemma DelChildSlot(h: Heap, p: Ptr, gone: string, q: Ptr, name: string)
    requires p in h
    ensures HeapSlot(DelChild(h, p, gone), q, name) == if q == p && name == gone then None else HeapSlot(h, q, name)
  {
  }

  lemma PutChildSlot(h: Heap, p: Ptr, put: string, c: Ptr, q: Ptr, name: string)
    requires p in h
    ensures HeapSlot(PutChild(h, p, put, c), q, name) == if q == p && name == put then Some(c) else HeapSlot(h, q, name)
  {
  }

  lemma SetNameSlot(h: Heap, p: Ptr, new': string, q: Ptr, name: string)
    requires p in h
    ensures HeapSlot(SetName(h, p, new'), q, name) == HeapSlot(h, q, name)
  {
  }

  lemma SetParentSlot(h: Heap, p: Ptr, parent: Ptr, q: Ptr, name: string)
    requires p in h
    ensures HeapSlot(SetParent(h, p, parent), q, name) == HeapSlot(h, q, name)
  {
  }

  lemma StepsSlot(fs: Fs, s: Ptr, sp: Ptr, d: Ptr, dp: Ptr, q: Ptr, name: string)
    requires InPlace(fs, s, sp) && InPlace(fs, d, dp) && s != d && q in fs.heap
    ensures var h := ExchangeSteps(fs.heap, s, sp, fs.heap[s].name, d, dp, fs.heap[d].name);
      Slot(fs.(heap := h), q, name) ==
        if q == sp && name == fs.heap[s].name then Some(d)
        else if q == dp && name == fs.heap[d].name then Some(s)
        else Slot(fs, q, name)
  {
    var sname, dname := fs.heap[s].name, fs.heap[d].name;
    var h1 := DelChild(fs.heap, sp, sname);
    DelChildSlot(fs.heap, sp, sname, q, name);
    SetNameSlot(h1, s, dname, q, name);
    var h2 := SetName(h1, s, dname);
    PutChildSlot(h2, dp, dname, s, q, name);
    var h3 := PutChild(h2, dp, dname, s);
    SetNameSlot(h3, d, sname, q, name);
    var h4 := SetName(h3, d, sname);
    PutChildSlot(h4, sp, sname, d, q, name);
    var h5 := PutChild(h4, sp, sname, d);
    SetParentSlot(h5, s, dp, q, name);
    SetParentSlot(SetParent(h5, s, dp), d, sp, q, name);
  }

  lemma StepsAt(fs: Fs, s: Ptr, sp: Ptr, d: Ptr, dp: Ptr, q: Ptr)
    requires InPlace(fs, s, sp) && InPlace(fs, d, dp) && s != d && q in fs.heap
    ensures var h := ExchangeSteps(fs.heap, s, sp, fs.heap[s].name, d, dp, fs.heap[d].name);
      q in h && q in Exchanged(fs, s, d).heap && h[q] == Exchanged(fs, s, d).heap[q]
  {
    var h := ExchangeSteps(fs.heap, s, sp, fs.heap[s].name, d, dp, fs.heap[d].name);
    StepsBody(fs, s, sp, d, dp, q);
    ExchangedBody(fs, s, sp, d, dp, q);
    ExchangedParents(fs, s, sp, d, dp, q);
    forall name
      ensures Slot(fs.(heap := h), q, name) == Slot(Exchanged(fs, s, d), q, name)
    {
      StepsSlot(fs, s, sp, d, dp, q, name);
      ExchangedSlot(fs, s, sp, d, dp, q, name);
      SameNameSamePlace(fs, s, sp, d, dp);
    }
    SameChildren(fs.(heap := h), Exchanged(fs, s, d), q);
  }

  lemma SameNameSamePlace(fs: Fs, s: Ptr, sp: Ptr, d: Ptr, dp: Ptr)
    requires InPlace(fs, s, sp) && InPlace(fs, d, dp) && s != d
    ensures sp != dp || fs.heap[s].name != fs.heap[d].name
  {
  }

  /** The single changes add up to the exchange. */
  lemma StepsExchange(fs: Fs, s: Ptr, sp: Ptr, d: Ptr, dp: Ptr)
    requires InPlace(fs, s, sp) && InPlace(fs, d, dp) && s != d
    ensures fs.(heap := ExchangeSteps(fs.heap, s, sp, fs.heap[s].name, d, dp, fs.heap[d].name)) == Exchanged(fs, s, d)
  {
    var h := ExchangeSteps(fs.heap, s, sp, fs.heap[s].name, d, dp, fs.heap[d].name);
    ExchangedKeys(fs, s, sp, d, dp);
    StepsBody(fs, s, sp, d, dp, s);
    forall q | q in fs.heap
      ensures h[q] == Exchanged(fs, s, d).heap[q]
    {
      StepsAt(fs, s, sp, d, dp, q);
    }
    assert h == Exchanged(fs, s, d).heap;
  }

  // ---------------------------------------------------------------- undoing the steps

  lemma PutBack(m: map<string, Ptr>, k: string, v: Ptr)
    requires k in m && m[k] == v
    ensures (m - {k})[k := v] == m
    ensures m[k := v] == m
  {
  }

  lemma DeleteBack(h: Heap, q: Ptr, name: string, c: Ptr)
    requires q in h && name in h[q].children && h[q].children[name] == c
    ensures PutChild(DelChild(h, q, name), q, name, c) == h
  {
    PutBack(h[q].children, name, c);
  }

  lemma ReplaceBack(h: Heap, q: Ptr, name: string, c: Ptr, other: Ptr)
    requires q in h && name in h[q].children && h[q].children[name] == c
    ensures PutChild(PutChild(h, q, name, other), q, name, c) == h
  {
    assert h[q].children[name := other][name := c] == h[q].children;
  }

  lemma NameBack(h: Heap, p: Ptr, name: string)
    requires p in h
    ensures SetName(SetName(h, p, name), p, h[p].name) == h
    ensures SetName(h, p, h[p].name) == h
  {
  }

  // ------------------------------------------- removal commutes with changes of place

  /** The dentry that loses a reference when d is removed. */
  ghost function Target(h: Heap, d: Ptr): Ptr
    requires d in h && (IsLink(h[d]) ==> h[d].src.Some?)
  {
    if IsLink(h[d]) then h[d].src.value else d
  }

  ghost predicate LiveTarget(h: Heap, d: Ptr) {
    d in h && (IsLink(h[d]) ==> h[d].src.Some? && h[d].src.value in h && h[d].src.value != d)
  }

  ghost predicate Goes(h: Heap, d: Ptr, q: Ptr)
    requires LiveTarget(h, d)
  {
    (q == d && IsLink(h[d])) || (q == Target(h, d) && h[q].nlink == 1)
  }

  lemma DoRemoveAt(fs: Fs, d: Ptr, q: Ptr)
    requires LiveTarget(fs.heap, d) && q in fs.heap
    ensures q in DoRemove(fs, d).heap <==> !Goes(fs.heap, d, q)
    ensures q in DoRemove(fs, d).heap ==>
              DoRemove(fs, d).heap[q] == if q == Target(fs.heap, d) then fs.heap[q].(nlink := fs.heap[q].nlink - 1) else fs.heap[q]
  {
  }

  lemma DoRemoveKeys(fs: Fs, d: Ptr, q: Ptr)
    requires LiveTarget(fs.heap, d)
    ensures q in DoRemove(fs, d).heap ==> q in fs.heap
  {
  }

  /** What removal looks at. */
  ghost predicate SameWeight(e: Entry, e': Entry) {
    e'.inode == e.inode && e'.stat == e.stat && e'.nlink == e.nlink && e'.src == e.src
  }

  lemma DoRemoveRest(fs: Fs, fs': Fs, d: Ptr)
    requires LiveTarget(fs.heap, d) && LiveTarget(fs'.heap, d) && fs'.(heap := fs.heap) == fs
    requires SameWeight(fs.heap[d], fs'.heap[d])
    requires SameWeight(fs.heap[Target(fs.heap, d)], fs'.heap[Target(fs.heap, d)])
    ensures DoRemove(fs', d).(heap := map[]) == DoRemove(fs, d).(heap := map[])
  {
  }

  /** The steps of an overwriting move, in the order they are taken. */
  ghost function OverwriteSteps(fs: Fs, s: Ptr, sp: Ptr, d: Ptr, dp: Ptr, dname: string): Fs
    requires s in fs.heap && sp in fs.heap && LiveTarget(fs.heap, d)
    requires LiveTarget(SetName(DelChild(fs.heap, sp, fs.heap[s].name), s, dname), d)
    requires var fs1 := fs.(heap := SetName(DelChild(fs.heap, sp, fs.heap[s].name), s, dname));
      !Goes(fs1.heap, d, s) && !Goes(fs1.heap, d, sp) && !Goes(fs1.heap, d, dp) && dp in fs.heap
  {
    var fs1 := fs.(heap := SetName(DelChild(fs.heap, sp, fs.heap[s].name), s, dname));
    DoRemoveAt(fs1, d, s);
    DoRemoveAt(fs1, d, sp);
    DoRemoveAt(fs1, d, dp);
    var fs2 := DoRemove(fs1, d);
    fs2.(heap := SetParent(AddNlink(PutChild(fs2.heap, dp, dname, s), sp, -1), s, dp))
  }

  /** What moving s from sp to dp makes of one entry. */
  ghost function MovedForm(e: Entry, q: Ptr, s: Ptr, sp: Ptr, sname: string, dp: Ptr, dname: string): Entry {
    var c1 := if q == sp then e.children - {sname} else e.children;
    e.(children := if q == dp then c1[dname := s] else c1,
       nlink := e.nlink - (if q == sp then 1 else 0) + (if q == dp then 1 else 0),
       name := if q == s then dname else e.name,
       parent := if q == s then Some(dp) else e.parent)
  }

  lemma MovedAt(fs: Fs, s: Ptr, sp: Ptr, dp: Ptr, dname: string, q: Ptr)
    requires InPlace(fs, s, sp) && dp in fs.heap && q in fs.heap
    ensures Moved(fs, s, dp, dname).heap[q] == MovedForm(fs.heap[q], q, s, sp, fs.heap[s].name, dp, dname)
  {
  }

  /** What is known when an entry is about to be overwritten. */
  ghost predicate Overwriting(fs: Fs, s: Ptr, sp: Ptr, d: Ptr, dp: Ptr, dname: string) {
    && InPlace(fs, s, sp) && InPlace(fs, d, dp) && s != d && fs.heap[d].name == dname
    && LiveTarget(fs.heap, d) && sp != d && dp != d
    && Target(fs.heap, d) != sp && Target(fs.heap, d) != dp
    && !Goes(fs.heap, d, s)
  }

  lemma OverwritingOf(fs: Fs, s: Ptr, sp: Ptr, d: Ptr, dp: Ptr)
    requires Valid(fs) && InPlace(fs, s, sp) && Attached(fs, s) && InPlace(fs, d, dp) && s != d && fs.heap[d].children == map[]
    ensures Overwriting(fs, s, sp, d, dp, fs.heap[d].name) && CanRemove(fs, d)
  {
    assert LinkOk(fs.heap, d);
    if IsLink(fs.heap[d]) && fs.heap[d].src == Some(s) {
      ReleasedIsFile(fs, d, s);
    }
  }

  ghost function PlaceChanged(fs: Fs, s: Ptr, sp: Ptr, dname: string): Fs
    requires s in fs.heap && sp in fs.heap
  {
    fs.(heap := SetName(DelChild(fs.heap, sp, fs.heap[s].name), s, dname))
  }

  lemma PlaceChangedAt(fs: Fs, s: Ptr, sp: Ptr, dname: string, q: Ptr)
    requires s in fs.heap && sp in fs.heap && q in fs.heap
    ensures var e := PlaceChanged(fs, s, sp, dname).heap[q];
      && SameWeight(fs.heap[q], e)
      && e == fs.heap[q].(name := if q == s then dname else fs.heap[q].name,
                          children := if q == sp then fs.heap[q].children - {fs.heap[s].name} else fs.heap[q].children)
  {
  }

  lemma StepsReady(fs: Fs, s: Ptr, sp: Ptr, d: Ptr, dp: Ptr, dname: string)
    requires Overwriting(fs, s, sp, d, dp, dname)
    ensures var h := PlaceChanged(fs, s, sp, dname).heap;
      LiveTarget(h, d) && Target(h, d) == Target(fs.heap, d) && !Goes(h, d, s) && !Goes(h, d, sp) && !Goes(h, d, dp)
  {
    PlaceChangedAt(fs, s, sp, dname, d);
    PlaceChangedAt(fs, s, sp, dname, Target(fs.heap, d));
  }

  lemma OverwriteLeft(fs: Fs, s: Ptr, sp: Ptr, d: Ptr, dp: Ptr, dname: string, q: Ptr)
    requires Overwriting(fs, s, sp, d, dp, dname) && q in fs.heap
    requires var h := PlaceChanged(fs, s, sp, dname).heap;
      LiveTarget(h, d) && Target(h, d) == Target(fs.heap, d) && !Goes(h, d, s) && !Goes(h, d, sp) && !Goes(h, d, dp)
    ensures q in OverwriteSteps(fs, s, sp, d, dp, dname).heap <==> !Goes(fs.heap, d, q)
    ensures q in OverwriteSteps(fs, s, sp, d, dp, dname).heap ==>
              OverwriteSteps(fs, s, sp, d, dp, dname).heap[q] ==
                var e := fs.heap[q];
                var c1 := if q == sp then e.children - {fs.heap[s].name} else e.children;
                e.(children := if q == dp then c1[dname := s] else c1,
                   nlink := e.nlink - (if q == Target(fs.heap, d) then 1 else 0) - (if q == sp then 1 else 0),
                   name := if q == s then dname else e.name,
                   parent := if q == s then Some(dp) else e.parent)
  {
    var fs1 := PlaceChanged(fs, s, sp, dname);
    PlaceChangedAt(fs, s, sp, dname, q);
    PlaceChangedAt(fs, s, sp, dname, d);
    DoRemoveAt(fs1, d, q);
    DoRemoveAt(fs1, d, s);
    DoRemoveAt(fs1, d, sp);
    DoRemoveAt(fs1, d, dp);
  }

  lemma DetachedAt(fs: Fs, d: Ptr, dp: Ptr, q: Ptr)
    requires InPlace(fs, d, dp) && q in fs.heap
    ensures q in Detach(fs, d).heap
    ensures Detach(fs, d).heap[q] ==
              if q == dp then fs.heap[q].(children := fs.heap[q].children - {fs.heap[d].name}, nlink := fs.heap[q].nlink - 1)
              else fs.heap[q]
  {
  }

  lemma RemovedAt(fs: Fs, s: Ptr, sp: Ptr, d: Ptr, dp: Ptr, dname: string, q: Ptr)
    requires Overwriting(fs, s, sp, d, dp, dname) && CanRemove(fs, d) && q in fs.heap
    ensures q in Removed(fs, d).heap <==> !Goes(fs.heap, d, q)
    ensures q in Removed(fs, d).heap ==>
              Removed(fs, d).heap[q] ==
                fs.heap[q].(children := if q == dp then fs.heap[q].children - {dname} else fs.heap[q].children,
                            nlink := fs.heap[q].nlink - (if q == dp || q == Target(fs.heap, d) then 1 else 0))
  {
    DetachedAt(fs, d, dp, q);
    DetachedAt(fs, d, dp, d);
    DetachedAt(fs, d, dp, Target(fs.heap, d));
    DoRemoveAt(Detach(fs, d), d, q);
  }

  lemma MergedChildren(m: map<string, Ptr>, sname: string, dname: string, s: Ptr)
    ensures ((m - {dname}) - {sname})[dname := s] == (m - {sname})[dname := s]
    ensures (m - {dname})[dname := s] == m[dname := s]
  {
  }

  lemma OverwriteAt(fs: Fs, s: Ptr, sp: Ptr, d: Ptr, dp: Ptr, dname: string, q: Ptr)
    requires Overwriting(fs, s, sp, d, dp, dname) && CanRemove(fs, d) && q in fs.heap
    requires var h := PlaceChanged(fs, s, sp, dname).heap;
      LiveTarget(h, d) && Target(h, d) == Target(fs.heap, d) && !Goes(h, d, s) && !Goes(h, d, sp) && !Goes(h, d, dp)
    requires InPlace(Removed(fs, d), s, sp) && dp in Removed(fs, d).heap
    ensures var l, r := OverwriteSteps(fs, s, sp, d, dp, dname).heap, Moved(Removed(fs, d), s, dp, dname).heap;
      (q in l <==> q in r) && (q in l ==> l[q] == r[q])
  {
    OverwriteLeft(fs, s, sp, d, dp, dname, q);
    RemovedAt(fs, s, sp, d, dp, dname, q);
    RemovedAt(fs, s, sp, d, dp, dname, s);
    MovedKeys(Removed(fs, d), s, sp, dp, dname);
    MergedChildren(fs.heap[q].children, fs.heap[s].name, dname, s);
    if q in Removed(fs, d).heap {
      MovedAt(Removed(fs, d), s, sp, dp, dname, q);
    }
  }

  lemma NothingNew(fs: Fs, s: Ptr, sp: Ptr, d: Ptr, dp: Ptr, dname: string, q: Ptr)
    requires Overwriting(fs, s, sp, d, dp, dname) && CanRemove(fs, d) && q !in fs.heap
    requires var h := PlaceChanged(fs, s, sp, dname).heap;
      LiveTarget(h, d) && Target(h, d) == Target(fs.heap, d) && !Goes(h, d, s) && !Goes(h, d, sp) && !Goes(h, d, dp)
    requires InPlace(Removed(fs, d), s, sp) && dp in Removed(fs, d).heap
    ensures q !in OverwriteSteps(fs, s, sp, d, dp, dname).heap && q !in Moved(Removed(fs, d), s, dp, dname).heap
  {
    var fs1 := PlaceChanged(fs, s, sp, dname);
    DoRemoveKeys(fs1, d, q);
    DoRemoveAt(fs1, d, s);
    DoRemoveAt(fs1, d, sp);
    DoRemoveAt(fs1, d, dp);
    DoRemoveKeys(Detach(fs, d), d, q);
    MovedKeys(Removed(fs, d), s, sp, dp, dname);
  }

  lemma OverwriteRest(fs: Fs, s: Ptr, sp: Ptr, d: Ptr, dp: Ptr, dname: string)
    requires Overwriting(fs, s, sp, d, dp, dname) && CanRemove(fs, d)
    requires var h := PlaceChanged(fs, s, sp, dname).heap;
      LiveTarget(h, d) && Target(h, d) == Target(fs.heap, d) && !Goes(h, d, s) && !Goes(h, d, sp) && !Goes(h, d, dp)
    requires InPlace(Removed(fs, d), s, sp) && dp in Removed(fs, d).heap
    ensures OverwriteSteps(fs, s, sp, d, dp, dname).(heap := map[]) == Moved(Removed(fs, d), s, dp, dname).(heap := map[])
  {
    var x := Target(fs.heap, d);
    var fs1 := PlaceChanged(fs, s, sp, dname);
    PlaceChangedAt(fs, s, sp, dname, d);
    PlaceChangedAt(fs, s, sp, dname, x);
    DetachedAt(fs, d, dp, d);
    DetachedAt(fs, d, dp, x);
    DoRemoveRest(fs1, Detach(fs, d), d);
    MovedKeys(Removed(fs, d), s, sp, dp, dname);
  }

  lemma EqualTrees(a: Fs, b: Fs)
    requires a.(heap := map[]) == b.(heap := map[])
    requires forall q :: (q in a.heap <==> q in b.heap) && (q in a.heap ==> a.heap[q] == b.heap[q])
    ensures a == b
  {
    assert a.heap == b.heap;
  }

  /** The steps of an overwriting move add up to removing the destination and
      moving the source to the name it left. */
  lemma StepsOverwrite(fs: Fs, s: Ptr, sp: Ptr, d: Ptr, dp: Ptr)
    requires Valid(fs) && InPlace(fs, s, sp) && Attached(fs, s) && InPlace(fs, d, dp) && s != d && fs.heap[d].children == map[]
    ensures var dname := fs.heap[d].name;
      var h := PlaceChanged(fs, s, sp, dname).heap;
      && Overwriting(fs, s, sp, d, dp, dname) && CanRemove(fs, d)
      && LiveTarget(h, d) && !Goes(h, d, s) && !Goes(h, d, sp) && !Goes(h, d, dp)
      && InPlace(Removed(fs, d), s, sp) && dp in Removed(fs, d).heap
      && OverwriteSteps(fs, s, sp, d, dp, dname) == Moved(Removed(fs, d), s, dp, dname)
  {
    var dname := fs.heap[d].name;
    OverwritingOf(fs, s, sp, d, dp);
    StepsReady(fs, s, sp, d, dp, dname);
    OverwriteReady(fs, sp, dp, s, d);
    StepsOverwriteEqual(fs, s, sp, d, dp, dname);
  }

  lemma StepsOverwriteEqual(fs: Fs, s: Ptr, sp: Ptr, d: Ptr, dp: Ptr, dname: string)
    requires Overwriting(fs, s, sp, d, dp, dname) && CanRemove(fs, d)
    requires var h := PlaceChanged(fs, s, sp, dname).heap;
      LiveTarget(h, d) && Target(h, d) == Target(fs.heap, d) && !Goes(h, d, s) && !Goes(h, d, sp) && !Goes(h, d, dp)
    requires InPlace(Removed(fs, d), s, sp) && dp in Removed(fs, d).heap
    ensures OverwriteSteps(fs, s, sp, d, dp, dname) == Moved(Removed(fs, d), s, dp, dname)
  {
    var l, r := OverwriteSteps(fs, s, sp, d, dp, dname), Moved(Removed(fs, d), s, dp, dname);
    OverwriteRest(fs, s, sp, d, dp, dname);
    forall q
      ensures (q in l.heap <==> q in r.heap) && (q in l.heap ==> l.heap[q] == r.heap[q])
    {
      if q in fs.heap {
        OverwriteAt(fs, s, sp, d, dp, dname, q);
      } else {
        NothingNew(fs, s, sp, d, dp, dname, q);
      }
    }
    EqualTrees(l, r);
  }

  /** The steps of a move to a free name. */
  ghost function MoveSteps(fs: Fs, s: Ptr, sp: Ptr, dp: Ptr, dname: string): Fs
    requires s in fs.heap && sp in fs.heap && dp in fs.heap
  {
    var h := PutChild(PlaceChanged(fs, s, sp, dname).heap, dp, dname, s);
    fs.(heap := SetParent(if dp == sp then h else AddNlink(AddNlink(h, sp, -1), dp, 1), s, dp))
  }

  lemma MoveStepsAt(fs: Fs, s: Ptr, sp: Ptr, dp: Ptr, dname: string, q: Ptr)
    requires s in fs.heap && sp in fs.heap && dp in fs.heap && q in fs.heap
    ensures q in MoveSteps(fs, s, sp, dp, dname).heap
    ensures MoveSteps(fs, s, sp, dp, dname).heap[q] == MovedForm(fs.heap[q], q, s, sp, fs.heap[s].name, dp, dname)
  {
    PlaceChangedAt(fs, s, sp, dname, q);
  }

  lemma StepsMove(fs: Fs, s: Ptr, sp: Ptr, dp: Ptr, dname: string)
    requires InPlace(fs, s, sp) && dp in fs.heap
    ensures MoveSteps(fs, s, sp, dp, dname) == Moved(fs, s, dp, dname)
  {
    MovedKeys(fs, s, sp, dp, dname);
    forall q
      ensures q in MoveSteps(fs, s, sp, dp, dname).heap <==> q in Moved(fs, s, dp, dname).heap
      ensures q in fs.heap ==> MoveSteps(fs, s, sp, dp, dname).heap[q] == Moved(fs, s, dp, dname).heap[q]
    {
      if q in fs.heap {
        MoveStepsAt(fs, s, sp, dp, dname, q);
        MovedAt(fs, s, sp, dp, dname, q);
      }
    }
    EqualTrees(MoveSteps(fs, s, sp, dp, dname), Moved(fs, s, dp, dname));
  }

  ghost predicate CanMove(fs: Fs, s: Ptr, sp: Ptr, d: Option<Ptr>, dp: Ptr, sname: string, dname: string) {
    && s in fs.heap && sp in fs.heap && dp in fs.heap && fs.heap[s].name == sname
    && sname in fs.heap[sp].children && fs.heap[sp].children[sname] == s
    && (d.Some? ==>
          var h := PlaceChanged(fs, s, sp, dname).heap;
          LiveTarget(fs.heap, d.value) && LiveTarget(h, d.value) && !Goes(h, d.value, s) && !Goes(h, d.value, sp) && !Goes(h, d.value, dp))
  }

  /** The steps of either kind of move. */
  ghost function AnyMoveSteps(fs: Fs, s: Ptr, sp: Ptr, d: Option<Ptr>, dp: Ptr, sname: string, dname: string): Fs
    requires CanMove(fs, s, sp, d, dp, sname, dname)
  {
    if d.None? then MoveSteps(fs, s, sp, dp, dname) else OverwriteSteps(fs, s, sp, d.value, dp, dname)
  }

  lemma StepsRename(fs: Fs, rec: Record, sp: Ptr, dp: Ptr, s: Ptr, d: Option<Ptr>)
    requires Valid(fs) && Checked(fs, rec, sp, dp, s, d) && d != Some(s) && !HasFlag(rec.flags, RENAME_EXCHANGE)
    ensures CanMove(fs, s, sp, d, dp, rec.src.name, rec.me.name)
    ensures AnyMoveSteps(fs, s, sp, d, dp, rec.src.name, rec.me.name) == Renamed(fs, rec, sp, dp, s, d)
  {
    if d.None? {
      StepsMove(fs, s, sp, dp, rec.me.name);
    } else {
      StepsOverwrite(fs, s, sp, d.value, dp);
    }
  }

  /** A removal as the server does it: the reference goes first, the name after. */
  ghost function RemoveSteps(fs: Fs, p: Ptr): Fs
    requires LiveTarget(fs.heap, p)
    requires fs.heap[p].parent.Some? ==> fs.heap[p].parent.value in fs.heap && !Goes(fs.heap, p, fs.heap[p].parent.value)
  {
    var fs1 := DoRemove(fs, p);
    if fs.heap[p].parent.None? then fs1.(root := None)
    else
      var q := fs.heap[p].parent.value;
      DoRemoveAt(fs, p, q);
      fs1.(heap := AddNlink(DelChild(fs1.heap, q, fs.heap[p].name), q, -1))
  }

  lemma RemoveStepsReady(fs: Fs, p: Ptr)
    requires Valid(fs) && p in fs.heap && Attached(fs, p) && fs.heap[p].children == map[]
    ensures CanRemove(fs, p) && LiveTarget(fs.heap, p)
    ensures fs.heap[p].parent.Some? ==>
              var q := fs.heap[p].parent.value; InPlace(fs, p, q) && q != p && Target(fs.heap, p) != q && !Goes(fs.heap, p, q)
  {
    assert LinkOk(fs.heap, p);
    RemovableEntry(fs, p);
    if fs.heap[p].parent.Some? {
      assert ChildOk(fs.heap, {}, fs.heap[p].parent.value, fs.heap[p].name);
    }
  }

  lemma StepsRemoveAt(fs: Fs, p: Ptr, q: Ptr, c: Ptr)
    requires CanRemove(fs, p) && LiveTarget(fs.heap, p) && InPlace(fs, p, q) && q != p && Target(fs.heap, p) != q
    ensures c in RemoveSteps(fs, p).heap <==> c in Removed(fs, p).heap
    ensures c in RemoveSteps(fs, p).heap ==> RemoveSteps(fs, p).heap[c] == Removed(fs, p).heap[c]
  {
    DoRemoveAt(fs, p, q);
    DetachedAt(fs, p, q, p);
    DetachedAt(fs, p, q, Target(fs.heap, p));
    if c in fs.heap {
      DetachedAt(fs, p, q, c);
      DoRemoveAt(fs, p, c);
      DoRemoveAt(Detach(fs, p), p, c);
    } else {
      DoRemoveKeys(fs, p, c);
      DoRemoveKeys(Detach(fs, p), p, c);
    }
  }

  lemma StepsRemoveChild(fs: Fs, p: Ptr, q: Ptr)
    requires CanRemove(fs, p) && LiveTarget(fs.heap, p) && InPlace(fs, p, q) && q != p && Target(fs.heap, p) != q
    ensures RemoveSteps(fs, p) == Removed(fs, p)
  {
    forall c
      ensures c in RemoveSteps(fs, p).heap <==> c in Removed(fs, p).heap
      ensures c in RemoveSteps(fs, p).heap ==> RemoveSteps(fs, p).heap[c] == Removed(fs, p).heap[c]
    {
      StepsRemoveAt(fs, p, q, c);
    }
    DetachedAt(fs, p, q, p);
    DetachedAt(fs, p, q, Target(fs.heap, p));
    DoRemoveRest(fs, Detach(fs, p), p);
    EqualTrees(RemoveSteps(fs, p), Removed(fs, p));
  }

  lemma StepsRemoveRoot(fs: Fs, p: Ptr)
    requires CanRemove(fs, p) && LiveTarget(fs.heap, p) && fs.heap[p].parent.None?
    ensures RemoveSteps(fs, p) == Removed(fs, p)
  {
  }

  lemma StepsRemove(fs: Fs, p: Ptr)
    requires Valid(fs) && p in fs.heap && Attached(fs, p) && fs.heap[p].children == map[]
    ensures CanRemove(fs, p) && LiveTarget(fs.heap, p)
    ensures fs.heap[p].parent.Some? ==> fs.heap[p].parent.value in fs.heap && !Goes(fs.heap, p, fs.heap[p].parent.value)
    ensures RemoveSteps(fs, p) == Removed(fs, p)
  {
    RemoveStepsReady(fs, p);
    if fs.heap[p].parent.Some? {
      StepsRemoveChild(fs, p, fs.heap[p].parent.value);
    } else {
      StepsRemoveRoot(fs, p);
    }
  }

  lemma AttachInPlace(fs: Fs, p: Ptr, parent: Option<Ptr>, name: string)
    requires p in fs.heap && fs.heap[p].parent == parent && fs.heap[p].name == name
    requires parent.Some? ==> parent.value in fs.heap && parent.value != p
    ensures Attach(fs, p, parent, name) ==
              if parent.None? then fs.(root := Some(p))
              else fs.(heap := AddNlink(PutChild(fs.heap, parent.value, name, p), parent.value, 1))
  {
    assert fs.heap[p := fs.heap[p]] == fs.heap;
  }

  class Tree {
    var heap: Heap
    var top: Ptr
    var root: Option<Ptr>
    var index: map<int, Ptr>
    var dirs: int
    var files: int
    var usedBytes: int

    function View(): Fs
      reads this
    {
      Fs(heap, top, root, index, dirs, files, usedBytes)
    }

    constructor ()
      ensures View() == EMPTY_FS
    {
      heap, top, root, index, dirs, files, usedBytes := map[], 0, None, map[], 0, 0, 0;
    }

    /** The walk up the parent pointers. */
    method IsAncestorOf(d: Ptr, p: Ptr, ghost up: seq<Ptr>) returns (yes: bool)
      requires IsChain(heap, {}, up) && up[0] == p
      ensures yes == IsAncestor(heap, d, p)
    {
      var parent := Some(p);
      ghost var i := 0;
      while parent.Some?
        invariant 0 <= i <= |up|
        invariant parent == if i < |up| then Some(up[i]) else None
        invariant d !in up[..i]
        decreases |up| - i
      {
        if parent.value == d {
          assert d in up;
          return true;
        }
        StepUp(heap, up, i);
        assert up[..i + 1] == up[..i] + [up[i]];
        parent := heap[parent.value].parent;
        i := i + 1;
      }
      assert up[..i] == up;
      forall path | IsChain(heap, {}, path) && path[0] == p
        ensures d !in path
      {
        ChainUnique(heap, {}, path, up);
      }
      return false;
    }

    /** Gives a dentry a new name, when there is one; copying it may fail. */
    method StoreName(p: Ptr, name: string, changed: bool, fails: bool) returns (ok: bool)
      requires p in heap && changed == (heap[p].name != name)
      modifies this`heap
      ensures ok == !(changed && fails)
      ensures heap == if ok then SetName(old(heap), p, name) else old(heap)
    {
      NameBack(heap, p, name);
      if !changed {
        return true;
      }
      if fails {
        return false;
      }
      heap := SetName(heap, p, name);
      return true;
    }

    /** The second half: the old destination takes the source's name and place,
        or the destination directory is put back. */
    method PlaceDest(s: Ptr, sp: Ptr, d: Ptr, dp: Ptr, sname: string, dname: string, fail: nat, ghost h1: Heap) returns (code: Code)
      requires sp in h1 && d in h1 && dp in h1 && dname in h1[dp].children && h1[dp].children[dname] == d
      requires h1[d].name == dname && heap == PutChild(h1, dp, dname, s)
      modifies this`heap
      ensures code == Success <==> !(fail == 4 || (fail == 3 && sname != dname))
      ensures heap == if code == Success then PutChild(SetName(PutChild(h1, dp, dname, s), d, sname), sp, sname, d) else h1
    {
      ReplaceBack(h1, dp, dname, d, s);
      var changed := sname != dname;
      var ok := StoreName(d, sname, changed, fail == 3);
      if !ok {
        heap := PutChild(heap, dp, heap[d].name, d);
        return NoMemory;
      }
      if fail == 4 {
        NameBack(PutChild(h1, dp, dname, s), d, sname);
        if changed {
          heap := SetName(heap, d, dname);
        }
        heap := PutChild(heap, dp, heap[d].name, d);
        return NoMemory;
      }
      heap := PutChild(heap, sp, heap[d].name, d);
      return Success;
    }

    /** Exchanges two entries, or fails at one of its steps and puts everything
        back: the first copy of a name, the replacement, the second copy, or the
        insertion. Names are copied only when they differ. */
    method ExchangeDentry(s: Ptr, sp: Ptr, d: Ptr, dp: Ptr, sname: string, dname: string, fail: nat) returns (code: Code)
      requires InPlace(View(), s, sp) && InPlace(View(), d, dp) && s != d
      requires heap[s].name == sname && heap[d].name == dname
      modifies this`heap
      ensures code == Success <==> !(fail in {2, 4} || (fail in {1, 3} && sname != dname))
      ensures View() == if code == Success then Exchanged(old(View()), s, d) else old(View())
    {
      var changed := sname != dname;
      DeleteBack(heap, sp, sname, s);
      heap := DelChild(heap, sp, sname);
      ghost var h1 := heap;
      NameBack(h1, s, dname);
      var renamed := StoreName(s, dname, changed, fail == 1);
      code := NoMemory;
      if renamed {
        if fail == 2 {
          code := NoEntry;
        } else {
          ghost var h2 := heap;
          heap := PutChild(heap, dp, heap[s].name, s);
          code := PlaceDest(s, sp, d, dp, sname, dname, fail, h2);
        }
      }
      if code == Success {
        heap := SetParent(heap, s, dp);
        heap := SetParent(heap, d, sp);
        StepsExchange(old(View()), s, sp, d, dp);
      } else {
        if changed && renamed {
          heap := SetName(heap, s, sname);
        }
        assert heap == h1;
        heap := PutChild(heap, sp, heap[s].name, s);
      }
    }

    /** Takes one reference from a dentry that was found to go, with the index,
        the counters and the used bytes. */
    method DropDentry(p: Ptr)
      requires p in heap
      modifies this
      ensures View() == Drop(old(View()), p)
    {
      var e := heap[p];
      heap := heap - {p};
      if !IsLink(e) {
        index := index - {e.inode};
        if e.stat.alloc > 0 {
          usedBytes := usedBytes - e.stat.alloc;
        }
      }
      if IsDir(e) {
        dirs := dirs - 1;
      } else {
        files := files - 1;
      }
    }

    method RemoveDentry(d: Ptr)
      requires LiveTarget(heap, d)
      modifies this
      ensures View() == DoRemove(old(View()), d)
    {
      if IsLink(heap[d]) {
        var x := heap[d].src.value;
        DropDentry(d);
        if heap[x].nlink == 1 {
          DropDentry(x);
        } else {
          heap := AddNlink(heap, x, -1);
        }
      } else if heap[d].nlink == 1 {
        DropDentry(d);
      } else {
        heap := AddNlink(heap, d, -1);
      }
    }

    /** The part of an overwriting move after the source has its new name. */
    method Overwrite(s: Ptr, sp: Ptr, d: Ptr, dp: Ptr, dname: string, ghost before: Fs)
      requires s in before.heap && sp in before.heap && dp in before.heap && LiveTarget(before.heap, d)
      requires View() == PlaceChanged(before, s, sp, dname) && LiveTarget(heap, d)
      requires !Goes(heap, d, s) && !Goes(heap, d, sp) && !Goes(heap, d, dp)
      modifies this
      ensures View() == OverwriteSteps(before, s, sp, d, dp, dname)
    {
      ghost var fs1 := View();
      DoRemoveAt(fs1, d, s);
      DoRemoveAt(fs1, d, sp);
      DoRemoveAt(fs1, d, dp);
      RemoveDentry(d);
      heap := PutChild(heap, dp, dname, s);
      heap := AddNlink(heap, sp, -1);
      heap := SetParent(heap, s, dp);
    }

    /** The part of a move to a free name after the source has its new name. */
    method Place(s: Ptr, sp: Ptr, dp: Ptr, dname: string, ghost before: Fs)
      requires s in before.heap && sp in before.heap && dp in before.heap
      requires View() == PlaceChanged(before, s, sp, dname)
      modifies this`heap
      ensures View() == MoveSteps(before, s, sp, dp, dname)
    {
      heap := PutChild(heap, dp, dname, s);
      if dp != sp {
        heap := AddNlink(heap, sp, -1);
        heap := AddNlink(heap, dp, 1);
      }
      heap := SetParent(heap, s, dp);
    }

    /** Moves an entry to a free name or over an entry, or fails at the copy of
        the name or at the insertion and puts everything back. */
    method MoveDentry(s: Ptr, sp: Ptr, d: Option<Ptr>, dp: Ptr, sname: string, dname: string, fail: nat) returns (code: Code)
      requires CanMove(View(), s, sp, d, dp, sname, dname)
      modifies this
      ensures code == Success <==> !((fail == 1 && sname != dname) || (fail == 2 && d.None?))
      ensures View() == if code == Success then AnyMoveSteps(old(View()), s, sp, d, dp, sname, dname) else old(View())
    {
      ghost var before := View();
      var changed := dname != sname;
      DeleteBack(heap, sp, sname, s);
      heap := DelChild(heap, sp, sname);
      ghost var h1 := heap;
      NameBack(h1, s, dname);
      var renamed := StoreName(s, dname, changed, fail == 1);
      code := NoMemory;
      if renamed {
        if d.Some? {
          Overwrite(s, sp, d.value, dp, dname, before);
          code := Success;
        } else if fail != 2 {
          Place(s, sp, dp, dname, before);
          code := Success;
        } else if changed {
          heap := SetName(heap, s, sname);
        }
      }
      if code != Success {
        assert heap == h1;
        heap := PutChild(heap, sp, heap[s].name, s);
      }
    }

    /** The whole rename. Without a failing step it does what Rename says; with
        one it changes nothing. */
    method RenameDentry(rec: Record, sp: Option<Ptr>, dp: Option<Ptr>, fail: nat) returns (code: Code, inode: int)
      requires Valid(View()) && LiveParent(View(), sp) && LiveParent(View(), dp)
      modifies this
      ensures var (c, fs', rec') := Rename(old(View()), rec, sp, dp);
        && (c != Success ==> code == c)
        && (fail == 0 ==> code == c)
        && (code == Success ==> c == Success && View() == fs' && inode == rec'.inode)
        && (code != Success ==> View() == old(View()))
    {
      inode := rec.inode;
      var (check, src, dest) := RenameCheck(View(), rec, sp, dp);
      if check != Success {
        return check, inode;
      }
      CheckedOf(View(), rec, sp, dp);
      if dest == src {
        return Exists, inode;
      }
      var s := src.value;
      if dp != sp {
        ghost var upD := DirChain(View(), dp.value);
        ghost var upS := DirChain(View(), sp.value);
        var below := IsAncestorOf(s, dp.value, upD);
        if below {
          return Loop, inode;
        }
        var above := IsAncestorOf(if dest.Some? then dest.value else dp.value, sp.value, upS);
        if above {
          return Loop, inode;
        }
      }
      var srcInode := heap[s].inode;
      if HasFlag(rec.flags, RENAME_EXCHANGE) {
        code := ExchangeDentry(s, sp.value, dest.value, dp.value, rec.src.name, rec.me.name, fail);
      } else {
        StepsRename(View(), rec, sp.value, dp.value, s, dest);
        code := MoveDentry(s, sp.value, dest, dp.value, rec.src.name, rec.me.name, fail);
      }
      if code == Success {
        inode := srcInode;
      }
    }

    method Remove(rec: Record, parent: Option<Ptr>) returns (code: Code, inode: int)
      requires Valid(View()) && LiveParent(View(), parent)
      modifies this
      ensures var (c, fs', rec') := DentryOps.Remove(old(View()), rec, parent); code == c && View() == fs' && inode == rec'.inode
    {
      inode := rec.inode;
      var (found, p) := FindMe(View(), parent, rec.me.name);
      if found != Success {
        return found, inode;
      }
      FoundIsAttached(View(), parent, rec.me.name);
      var me := heap[p.value];
      if IsDir(me) && me.children != map[] {
        return NotEmpty, inode;
      }
      LeafOrFile(View(), p.value);
      StepsRemove(View(), p.value);
      inode := me.inode;
      ghost var before := View();
      RemoveDentry(p.value);
      if parent.None? {
        root := None;
      } else {
        DoRemoveAt(before, p.value, parent.value);
        heap := DelChild(heap, parent.value, me.name);
        heap := AddNlink(heap, parent.value, -1);
      }
      code := Success;
    }

    method NewDentry(e: Entry)
      requires (forall q :: q in heap ==> q < top) && (IsLink(e) ==> e.src.Some? && e.src.value in heap)
      modifies this
      ensures View() == Born(old(View()), e) && heap[old(top)] == e
    {
      heap := heap[top := e];
      if IsLink(e) {
        heap := AddNlink(heap, e.src.value, 1);
      } else {
        index := index[e.inode := top];
      }
      if IsDir(e) {
        dirs := dirs + 1;
      } else {
        files := files + 1;
      }
      top := top + 1;
    }

    /** Puts a dentry that already carries its name and its parent in place. */
    method Insert(p: Ptr, parent: Option<Ptr>, name: string)
      requires p in heap && heap[p].parent == parent && heap[p].name == name
      requires parent.Some? ==> parent.value in heap && parent.value != p
      modifies this
      ensures View() == Attach(old(View()), p, parent, name)
    {
      AttachInPlace(View(), p, parent, name);
      if parent.None? {
        root := Some(p);
      } else {
        heap := PutChild(heap, parent.value, name, p);
        heap := AddNlink(heap, parent.value, 1);
      }
    }

    /** Allocates a dentry and puts it in place. */
    method Enter(e: Entry)
      requires (forall q :: q in heap ==> q < top) && (IsLink(e) ==> e.src.Some? && e.src.value in heap)
      requires e.parent.Some? ==> e.parent.value in heap
      modifies this
      ensures View() == Attach(Born(old(View()), e), old(top), e.parent, e.name)
    {
      var me := top;
      NewDentry(e);
      Insert(me, e.parent, e.name);
    }

    method Create(rec: Record, parent: Option<Ptr>, src: Option<Ptr>, inodeNext: int) returns (code: Code, inode: int)
      requires Valid(View()) && CreateReady(View(), rec, parent, src)
      modifies this
      ensures var (c, fs', rec') := DentryOps.Create(old(View()), rec, parent, src, inodeNext);
        code == c && View() == fs' && inode == rec'.inode
    {
      inode := rec.inode;
      var mode := rec.stat.mode;
      if mode.kind == KIND_NONE && !mode.hardLink {
        return Invalid, inode;
      }
      var (found, _) := FindMe(View(), parent, rec.me.name);
      if found != NoEntry {
        return if found == Success then Exists else found, inode;
      }
      var newInode := if rec.inode == 0 then inodeNext else rec.inode;
      if !mode.hardLink && newInode in index {
        return Exists, inode;
      }
      Enter(NewEntry(rec, parent, src, newInode));
      inode := newInode;
      code := Success;
    }
  }

  lemma StepUp(h: Heap, up: seq<Ptr>, i: nat)
    requires IsChain(h, {}, up) && i < |up|
    ensures h[up[i]].parent == if i + 1 < |up| then Some(up[i + 1]) else None
  {
  }
}
