/**
 Updates of a dentry found by its inode: attributes, the size request of the
 storage layer and extended attributes.
 */
module InodeUpdates {
  import opened Wrappers
  import opened Record
  import opened Dentry
  import opened DentryAccounting
  import opened DentryOps
  import RenameLaws

  const FLAG_FILE_SIZE := 1
  const FLAG_INC_ALLOC := 2
  const FLAG_SPACE_END := 4
  const FLAG_MTIME := 8
  const FLAG_FORCE := 16

  const XATTR_CREATE := 1
  const XATTR_REPLACE := 2
  const MAX_XATTRS := 64

  // ---------------------------------------------------------------- attributes

  /** Only the fields the record selects change. */
  function UpdatedStat(stat: Stat, rec: Record): Stat {
    var o, n := rec.options, rec.stat;
    stat.(mode := if o.mode then n.mode else stat.mode,
          atime := if o.atime then n.atime else stat.atime,
          ctime := if o.ctime then n.ctime else stat.ctime,
          mtime := if o.mtime then n.mtime else stat.mtime,
          uid := if o.uid then n.uid else stat.uid,
          gid := if o.gid then n.gid else stat.gid,
          size := if o.size then n.size else stat.size,
          spaceEnd := if o.spaceEnd then n.spaceEnd else stat.spaceEnd,
          alloc := stat.alloc + (if o.incAlloc then n.alloc else 0))
  }

  function SetStat(fs: Fs, p: Ptr, stat: Stat): Fs
    requires p in fs.heap
  {
    fs.(heap := fs.heap[p := fs.heap[p].(stat := stat)],
        usedBytes := fs.usedBytes + stat.alloc - fs.heap[p].stat.alloc)
  }

  ghost predicate IndexLive(fs: Fs) {
    forall i :: i in fs.index ==> fs.index[i] in fs.heap
  }

  function Update(fs: Fs, rec: Record): (Code, Fs)
    requires IndexLive(fs)
  {
    if rec.inode !in fs.index then (NoEntry, fs)
    else
      var p := fs.index[rec.inode];
      (Success, SetStat(fs, p, UpdatedStat(fs.heap[p].stat, rec)))
  }

  // -------------------------------------------------------------- the size request

  /** What a size request does to a dentry, and the update record it turns into. */
  function SizeRequest(stat: Stat, rec: Record, flags: int, now: int): (Stat, Record) {
    var force := HasFlag(flags, FLAG_FORCE);
    var sizeFlag := HasFlag(flags, FLAG_FILE_SIZE);
    var setSize := sizeFlag && (force || stat.size < rec.stat.size) && stat.size != rec.stat.size;
    var setMtime := (sizeFlag || HasFlag(flags, FLAG_MTIME)) && stat.mtime != now;
    var setEnd := HasFlag(flags, FLAG_SPACE_END) && (force || stat.spaceEnd < rec.stat.size) && stat.spaceEnd != rec.stat.size;
    var inc := HasFlag(flags, FLAG_INC_ALLOC);
    (stat.(size := if setSize then rec.stat.size else stat.size,
           mtime := if setMtime then now else stat.mtime,
           spaceEnd := if setEnd then rec.stat.size else stat.spaceEnd,
           alloc := if inc then stat.alloc + rec.stat.alloc else stat.alloc),
     rec.(op := UpdateDentry,
          options := NO_OPTIONS.(size := setSize, mtime := setMtime, spaceEnd := setEnd, incAlloc := inc),
          stat := rec.stat.(mtime := if setMtime then now else rec.stat.mtime,
                            spaceEnd := if setEnd then rec.stat.size else rec.stat.spaceEnd)))
  }

  function SetSize(fs: Fs, rec: Record, flags: int, now: int): (Code, Fs, Record)
    requires IndexLive(fs)
  {
    if rec.inode !in fs.index then (NoEntry, fs, rec)
    else
      var p := fs.index[rec.inode];
      var (stat, rec') := SizeRequest(fs.heap[p].stat, rec, flags, now);
      (Success, SetStat(fs, p, stat), rec')
  }

  function Max(a: int, b: int): int {
    if a < b then b else a
  }

  /** Without the force flag size and end of space only grow; with it they are
      set; without their own flags they stay. */
  lemma SizeMeaning(stat: Stat, rec: Record, flags: int, now: int)
    ensures var stat' := SizeRequest(stat, rec, flags, now).0;
      && stat'.size == (if !HasFlag(flags, FLAG_FILE_SIZE) then stat.size
                        else if HasFlag(flags, FLAG_FORCE) then rec.stat.size else Max(stat.size, rec.stat.size))
      && stat'.spaceEnd == (if !HasFlag(flags, FLAG_SPACE_END) then stat.spaceEnd
                            else if HasFlag(flags, FLAG_FORCE) then rec.stat.size else Max(stat.spaceEnd, rec.stat.size))
      && stat'.mtime == (if HasFlag(flags, FLAG_FILE_SIZE) || HasFlag(flags, FLAG_MTIME) then now else stat.mtime)
      && stat'.alloc == stat.alloc + (if HasFlag(flags, FLAG_INC_ALLOC) then rec.stat.alloc else 0)
      && stat'.(size := stat.size, spaceEnd := stat.spaceEnd, mtime := stat.mtime, alloc := stat.alloc) == stat
  {
  }

  /** The update record a size request turns into does the same change when it
      is applied instead of the request. */
  lemma SizeReplays(fs: Fs, rec: Record, flags: int, now: int)
    requires IndexLive(fs) && SetSize(fs, rec, flags, now).0 == Success
    ensures Update(fs, SetSize(fs, rec, flags, now).2) == (Success, SetSize(fs, rec, flags, now).1)
  {
  }

  /** A size request that selects no field changed nothing, so leaving it out of
      the log loses nothing. */
  lemma QuietSize(fs: Fs, rec: Record, flags: int, now: int)
    requires IndexLive(fs) && SetSize(fs, rec, flags, now).0 == Success
    requires SetSize(fs, rec, flags, now).2.options == NO_OPTIONS
    ensures SetSize(fs, rec, flags, now).1 == fs
  {
    var p := fs.index[rec.inode];
    assert SizeRequest(fs.heap[p].stat, rec, flags, now).0 == fs.heap[p].stat;
    assert fs.heap[p := fs.heap[p]] == fs.heap;
  }

  // ------------------------------------------------------------- what updates keep

  lemma StatShape(fs: Fs, p: Ptr, stat: Stat)
    requires Shape(fs, {}) && p in fs.heap
    requires stat.mode.kind == KIND_DIR <==> IsDir(fs.heap[p])
    requires stat.mode.hardLink == IsLink(fs.heap[p])
    ensures Shape(SetStat(fs, p, stat), {})
  {
    var fs' := SetStat(fs, p, stat);
    forall q, name | q in fs'.heap && name in fs'.heap[q].children
      ensures ChildOk(fs'.heap, {}, q, name)
    {
      assert ChildOk(fs.heap, {}, q, name);
    }
    forall c | c in fs.heap
      ensures Attached(fs', c) <==> Attached(fs, c)
    {
    }
  }

  lemma StatAcyclic(fs: Fs, p: Ptr, stat: Stat)
    requires Acyclic(fs, {}) && p in fs.heap
    requires stat.mode.kind == KIND_DIR <==> IsDir(fs.heap[p])
    ensures Acyclic(SetStat(fs, p, stat), {})
  {
    SameParentsAcyclic(fs, SetStat(fs, p, stat), {});
  }

  lemma StatNlink(fs: Fs, p: Ptr, stat: Stat, c: Ptr)
    requires p in fs.heap && c in fs.heap && NlinkOk(fs, {}, c) && LinkOk(fs.heap, c)
    requires stat.mode.kind == KIND_DIR <==> IsDir(fs.heap[p])
    requires stat.mode.hardLink == IsLink(fs.heap[p])
    ensures NlinkOk(SetStat(fs, p, stat), {}, c)
  {
    LinksSame(fs, SetStat(fs, p, stat), c);
    assert Attached(SetStat(fs, p, stat), c) <==> Attached(fs, c);
  }

  lemma StatNlinks(fs: Fs, p: Ptr, stat: Stat)
    requires AllNlinks(fs, {}) && Linked(fs) && p in fs.heap
    requires stat.mode.kind == KIND_DIR <==> IsDir(fs.heap[p])
    requires stat.mode.hardLink == IsLink(fs.heap[p])
    ensures AllNlinks(SetStat(fs, p, stat), {})
  {
    forall c | c in fs.heap
      ensures NlinkOk(SetStat(fs, p, stat), {}, c)
    {
      assert NlinkOk(fs, {}, c) && LinkOk(fs.heap, c);
      StatNlink(fs, p, stat, c);
    }
  }

  lemma StatLinked(fs: Fs, p: Ptr, stat: Stat)
    requires Linked(fs) && p in fs.heap
    requires stat.mode.kind == KIND_DIR <==> IsDir(fs.heap[p])
    requires stat.mode.hardLink == IsLink(fs.heap[p])
    ensures Linked(SetStat(fs, p, stat))
  {
    forall c | c in SetStat(fs, p, stat).heap
      ensures LinkOk(SetStat(fs, p, stat).heap, c)
    {
      assert LinkOk(fs.heap, c);
    }
  }

  lemma StatIndexed(fs: Fs, p: Ptr, stat: Stat)
    requires Indexed(fs) && p in fs.heap && stat.mode.hardLink == IsLink(fs.heap[p])
    ensures Indexed(SetStat(fs, p, stat))
  {
    forall c | c in fs.heap
      ensures HasKey(SetStat(fs, p, stat), c)
    {
      assert HasKey(fs, c);
    }
  }

  lemma StatCounted(fs: Fs, p: Ptr, stat: Stat)
    requires Counted(fs) && p in fs.heap
    requires stat.mode.kind == KIND_DIR <==> IsDir(fs.heap[p])
    ensures Counted(SetStat(fs, p, stat))
  {
    var fs' := SetStat(fs, p, stat);
    SumSame(fs.top, DirWeight(fs.heap), DirWeight(fs'.heap));
    SumSame(fs.top, FileWeight(fs.heap), FileWeight(fs'.heap));
  }

  lemma TypeChangeMiscounts(fs: Fs, p: Ptr, stat: Stat)
    requires Counted(fs) && p in fs.heap && p < fs.top
    requires (stat.mode.kind == KIND_DIR) != IsDir(fs.heap[p])
    ensures !Counted(SetStat(fs, p, stat))
  {
    SumChange(fs.top, DirWeight(fs.heap), DirWeight(SetStat(fs, p, stat).heap), p);
  }

  lemma RealBecomesLink(fs: Fs, p: Ptr, stat: Stat)
    requires Linked(fs) && p in fs.heap && !IsLink(fs.heap[p]) && stat.mode.hardLink
    ensures !Linked(SetStat(fs, p, stat))
  {
    assert LinkOk(fs.heap, p);
    assert !LinkOk(SetStat(fs, p, stat).heap, p);
  }

  lemma StatValidExact(fs: Fs, p: Ptr, stat: Stat)
    requires Valid(fs) && p in fs.heap && !IsLink(fs.heap[p])
    ensures Valid(SetStat(fs, p, stat)) <==>
              !stat.mode.hardLink && (stat.mode.kind == KIND_DIR <==> IsDir(fs.heap[p]))
  {
    if stat.mode.hardLink {
      RealBecomesLink(fs, p, stat);
    } else if (stat.mode.kind == KIND_DIR) != IsDir(fs.heap[p]) {
      TypeChangeMiscounts(fs, p, stat);
    } else {
      StatShape(fs, p, stat);
      StatAcyclic(fs, p, stat);
      StatNlinks(fs, p, stat);
      StatLinked(fs, p, stat);
      StatIndexed(fs, p, stat);
      StatCounted(fs, p, stat);
    }
  }

  /** An attribute update takes the mode as it comes: it keeps the tree exactly
      when the new mode is neither a hard link's nor turns a directory into
      something else or the other way round. */
  lemma UpdateValidExact(fs: Fs, rec: Record)
    requires Valid(fs) && rec.inode in fs.index
    ensures IndexLive(fs)
    ensures var e := fs.heap[fs.index[rec.inode]];
      Valid(Update(fs, rec).1) <==>
        (rec.options.mode ==> !rec.stat.mode.hardLink && (rec.stat.mode.kind == KIND_DIR <==> IsDir(e)))
  {
    var p := fs.index[rec.inode];
    StatValidExact(fs, p, UpdatedStat(fs.heap[p].stat, rec));
  }

  /** Giving the file /a/f a directory's mode breaks the tree. */
  lemma TypeChangeExample() returns (fs: Fs, rec: Record)
    ensures Valid(fs) && rec.inode in fs.index && rec.options.mode
    ensures IndexLive(fs) && Update(fs, rec).0 == Success && !Valid(Update(fs, rec).1)
  {
    fs := RenameLaws.SmallTree();
    rec := ZERO_RECORD.(inode := fs.heap[2].inode, options := NO_OPTIONS.(mode := true),
                        stat := ZERO_STAT.(mode := Mode(0, KIND_DIR, false)));
    assert HasKey(fs, 2);
    UpdateValidExact(fs, rec);
  }

  /** A size request keeps the tree. */
  lemma SetSizeKeepsValid(fs: Fs, rec: Record, flags: int, now: int)
    requires Valid(fs)
    ensures IndexLive(fs) && Valid(SetSize(fs, rec, flags, now).1)
  {
    if rec.inode in fs.index {
      var p := fs.index[rec.inode];
      StatValidExact(fs, p, SizeRequest(fs.heap[p].stat, rec, flags, now).0);
    }
  }

  /** New attributes, whatever they are, keep the used bytes in step with what
      the file holds. */
  lemma StatDrift(fs: Fs, p: Ptr, stat: Stat)
    requires p in fs.heap && p < fs.top && !IsLink(fs.heap[p]) && !stat.mode.hardLink
    ensures Drift(SetStat(fs, p, stat)) == Drift(fs)
  {
    SumChange(fs.top, AllocWeight(fs.heap), AllocWeight(SetStat(fs, p, stat).heap), p);
  }

  // -------------------------------------------------------- extended attributes

  type Xattrs = seq<(string, string)>

  ghost predicate DistinctKeys(xs: Xattrs) {
    forall i, j :: 0 <= i < j < |xs| ==> xs[i].0 != xs[j].0
  }

  function FindKey(xs: Xattrs, key: string): (i: nat)
    ensures i <= |xs|
    ensures i < |xs| ==> xs[i].0 == key
    ensures forall j :: 0 <= j < i ==> xs[j].0 != key
  {
    if xs == [] then 0
    else if xs[0].0 == key then 0
    else
      var k := FindKey(xs[1..], key);
      assert forall j :: 1 <= j < k + 1 ==> xs[j] == xs[1..][j - 1];
      k + 1
  }

  function PutXattr(xs: Xattrs, key: string, value: string, flags: int): (Code, Xattrs) {
    var i := FindKey(xs, key);
    if i < |xs| then
      if flags == XATTR_CREATE then (Exists, xs) else (Success, xs[i := (xs[i].0, value)])
    else if flags == XATTR_REPLACE then (NoData, xs)
    else if |xs| == MAX_XATTRS then (Overflow, xs)
    else (Success, xs + [(key, value)])
  }

  function DropXattr(xs: Xattrs, key: string): (Code, Xattrs) {
    var i := FindKey(xs, key);
    if i < |xs| then (Success, xs[..i] + xs[i + 1..]) else (NoData, xs)
  }

  function GetXattr(xs: Xattrs, key: string): Option<string> {
    var i := FindKey(xs, key);
    if i < |xs| then Some(xs[i].1) else None
  }

  lemma GetAt(xs: Xattrs, i: nat)
    requires DistinctKeys(xs) && i < |xs|
    ensures GetXattr(xs, xs[i].0) == Some(xs[i].1)
  {
  }

  lemma GetNone(xs: Xattrs, key: string)
    requires forall j :: 0 <= j < |xs| ==> xs[j].0 != key
    ensures GetXattr(xs, key) == None
  {
  }

  lemma GetSame(xs: Xattrs, ys: Xattrs, key: string)
    requires DistinctKeys(xs) && DistinctKeys(ys)
    requires forall v :: (key, v) in xs <==> (key, v) in ys
    ensures GetXattr(xs, key) == GetXattr(ys, key)
  {
    var i := FindKey(xs, key);
    var k := FindKey(ys, key);
    assert i < |xs| ==> (key, xs[i].1) in xs;
    assert k < |ys| ==> (key, ys[k].1) in ys;
    if i < |xs| {
      var j :| 0 <= j < |ys| && ys[j] == (key, xs[i].1);
      GetAt(ys, j);
    }
  }

  /** Setting an attribute changes that attribute only, and succeeds exactly
      when the flags allow it and there is room. */
  lemma SetXattrMeaning(xs: Xattrs, key: string, value: string, flags: int, other: string)
    requires DistinctKeys(xs) && |xs| <= MAX_XATTRS
    ensures var (code, xs') := PutXattr(xs, key, value, flags);
      && DistinctKeys(xs') && |xs'| <= MAX_XATTRS
      && (code == Success <==>
            if GetXattr(xs, key).Some? then flags != XATTR_CREATE else flags != XATTR_REPLACE && |xs| < MAX_XATTRS)
      && (code == Success ==> GetXattr(xs', key) == Some(value))
      && (code != Success ==> xs' == xs)
      && (other != key ==> GetXattr(xs', other) == GetXattr(xs, other))
  {
    var (code, xs') := PutXattr(xs, key, value, flags);
    if code == Success {
      var i := FindKey(xs, key);
      assert i < |xs'| && xs'[i] == (key, value);
      GetAt(xs', i);
      if other != key {
        SetKeepsOthers(xs, key, value, flags, other);
        GetSame(xs, xs', other);
      }
    }
  }

  lemma SetKeepsOthers(xs: Xattrs, key: string, value: string, flags: int, other: string)
    requires PutXattr(xs, key, value, flags).0 == Success && other != key
    ensures forall v :: (other, v) in xs <==> (other, v) in PutXattr(xs, key, value, flags).1
  {
    var xs' := PutXattr(xs, key, value, flags).1;
    var k := FindKey(xs, key);
    forall v
      ensures (other, v) in xs <==> (other, v) in xs'
    {
      if (other, v) in xs {
        var i :| 0 <= i < |xs| && xs[i] == (other, v);
        assert xs'[i] == xs[i];
      }
      if (other, v) in xs' {
        var i :| 0 <= i < |xs'| && xs'[i] == (other, v);
        assert i != k;
        assert xs[i] == xs'[i];
      }
    }
  }

  /** Removing an attribute removes it and keeps all others; it fails exactly
      when there is none. */
  lemma RemoveXattrMeaning(xs: Xattrs, key: string, other: string)
    requires DistinctKeys(xs)
    ensures var (code, xs') := DropXattr(xs, key);
      && DistinctKeys(xs') && |xs'| <= |xs|
      && (code == Success <==> GetXattr(xs, key).Some?)
      && GetXattr(xs', key) == None
      && (other != key ==> GetXattr(xs', other) == GetXattr(xs, other))
  {
    var (code, xs') := DropXattr(xs, key);
    var k := FindKey(xs, key);
    if code == Success {
      forall j | 0 <= j < |xs'|
        ensures xs'[j] == (if j < k then xs[j] else xs[j + 1]) && xs'[j].0 != key
      {
      }
      GetNone(xs', key);
      if other != key {
        RemoveKeepsOthers(xs, key, other);
        GetSame(xs, xs', other);
      }
    }
  }

  lemma RemoveKeepsOthers(xs: Xattrs, key: string, other: string)
    requires other != key
    ensures forall v :: (other, v) in xs <==> (other, v) in DropXattr(xs, key).1
  {
    var xs' := DropXattr(xs, key).1;
    var k := FindKey(xs, key);
    forall v
      ensures (other, v) in xs <==> (other, v) in xs'
    {
      if (other, v) in xs && k < |xs| {
        var i :| 0 <= i < |xs| && xs[i] == (other, v);
        assert xs'[if i < k then i else i - 1] == xs[i];
      }
    }
  }

  /** The log does not keep the create and replace flags: applying the record
      without them still gives the same attributes. */
  lemma SetXattrReplays(xs: Xattrs, key: string, value: string, flags: int)
    requires PutXattr(xs, key, value, flags).0 == Success
    ensures PutXattr(xs, key, value, 0) == PutXattr(xs, key, value, flags)
  {
  }

  /** Drops the element at k among the first n. */
  method ShiftDown(a: array<(string, string)>, k: nat, n: nat)
    requires k < n <= a.Length
    modifies a
    ensures a[..n - 1] == old(a[..])[..k] + old(a[..])[k + 1..n]
  {
    ghost var before := a[..];
    var i := k + 1;
    while i < n
      invariant k < i <= n
      invariant forall j :: 0 <= j < k ==> a[j] == before[j]
      invariant forall j :: k <= j < i - 1 ==> a[j] == before[j + 1]
      invariant forall j :: i - 1 <= j < n ==> a[j] == before[j]
    {
      a[i - 1] := a[i];
      i := i + 1;
    }
  }

  /** The attributes in their array, which doubles up to the limit. */
  class XattrArray {
    var elts: array<(string, string)>
    var count: nat

    ghost predicate Valid()
      reads this
    {
      elts.Length in {0, 2, 4, 8, 16, 32, 64} && count <= elts.Length
    }

    ghost function View(): Xattrs
      requires Valid()
      reads this, elts
    {
      elts[..count]
    }

    constructor ()
      ensures Valid() && fresh(elts) && View() == []
    {
      elts := new (string, string)[0];
      count := 0;
    }

    method FindIndex(key: string) returns (i: nat)
      requires Valid()
      ensures i == FindKey(View(), key)
    {
      i := 0;
      while i < count && elts[i].0 != key
        invariant i <= count && forall j :: 0 <= j < i ==> elts[j].0 != key
      {
        i := i + 1;
      }
      FindIs(View(), key, i);
    }

    /** Makes room for one more, or reports that the limit is reached. */
    method Grow() returns (ok: bool)
      requires Valid()
      modifies this`elts
      ensures Valid() && View() == old(View()) && (elts == old(elts) || fresh(elts))
      ensures ok == (count < MAX_XATTRS) && (ok ==> count < elts.Length)
    {
      if count < elts.Length {
        return true;
      }
      if elts.Length == MAX_XATTRS {
        return false;
      }
      var bigger := new (string, string)[if elts.Length == 0 then 2 else elts.Length * 2];
      var i := 0;
      while i < count
        invariant i <= count && elts == old(elts) && elts[..] == old(elts[..])
        invariant forall j :: 0 <= j < i ==> bigger[j] == elts[j]
      {
        bigger[i] := elts[i];
        i := i + 1;
      }
      elts := bigger;
      return true;
    }

    method Set(key: string, value: string, flags: int) returns (code: Code)
      requires Valid()
      modifies this, elts
      ensures Valid() && (elts == old(elts) || fresh(elts))
      ensures (code, View()) == PutXattr(old(View()), key, value, flags)
    {
      var i := FindIndex(key);
      if i < count {
        if flags == XATTR_CREATE {
          return Exists;
        }
        elts[i] := (elts[i].0, value);
        assert View() == old(View())[i := (old(View())[i].0, value)];
        return Success;
      }
      if flags == XATTR_REPLACE {
        return NoData;
      }
      var ok := Grow();
      if !ok {
        return Overflow;
      }
      elts[count] := (key, value);
      count := count + 1;
      assert View() == old(View()) + [(key, value)];
      return Success;
    }

    /** Shifts the attributes behind the removed one down. */
    method Remove(key: string) returns (code: Code)
      requires Valid()
      modifies this, elts
      ensures Valid() && elts == old(elts)
      ensures (code, View()) == DropXattr(old(View()), key)
    {
      var k := FindIndex(key);
      if k == count {
        return NoData;
      }
      ghost var all, n := elts[..], count;
      assert View() == all[..n];
      ShiftDown(elts, k, count);
      count := count - 1;
      assert all[..n][..k] == all[..k] && all[..n][k + 1..] == all[k + 1..n];
      return Success;
    }
  }

  lemma {:induction false} FindIs(xs: Xattrs, key: string, i: nat)
    requires i <= |xs| && (i < |xs| ==> xs[i].0 == key) && forall j :: 0 <= j < i ==> xs[j].0 != key
    ensures FindKey(xs, key) == i
  {
    if i > 0 {
      FindIs(xs[1..], key, i - 1);
    }
  }
}
