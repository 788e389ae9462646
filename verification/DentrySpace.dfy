/** Used bytes: which changes of the tree keep them equal to what its files hold. */
module DentrySpace {
  import opened Wrappers
  import opened Record
  import opened Dentry
  import opened DentryAccounting
  import opened DentryOps

  /** A real dentry that went while it held less than nothing. */
  ghost predicate WentOverdrawn(fs: Fs, fs': Fs, p: Ptr) {
    p in fs.heap && p !in fs'.heap && !IsLink(fs.heap[p]) && fs.heap[p].stat.alloc < 0
  }

  ghost predicate DropsOverdrawn(fs: Fs, fs': Fs) {
    exists p :: WentOverdrawn(fs, fs', p)
  }

  /** The used bytes keep their distance from what the files hold exactly when no
      overdrawn dentry went; otherwise they fall behind. */
  ghost predicate Settles(fs: Fs, fs': Fs) {
    Drift(fs') <= Drift(fs) && (Drift(fs') == Drift(fs) <==> !DropsOverdrawn(fs, fs'))
  }

  /** Nothing is added, and what stays holds what it held. */
  ghost predicate Shrinks(fs: Fs, fs': Fs) {
    forall p :: p in fs'.heap ==> p in fs.heap && IsLink(fs'.heap[p]) == IsLink(fs.heap[p]) && fs'.heap[p].stat.alloc == fs.heap[p].stat.alloc
  }

  ghost predicate Closes(fs: Fs, fs': Fs) {
    Shrinks(fs, fs') && Settles(fs, fs')
  }

  lemma ClosesTwice(fs: Fs, fs1: Fs, fs2: Fs)
    requires Closes(fs, fs1) && Closes(fs1, fs2)
    ensures Closes(fs, fs2)
  {
    if DropsOverdrawn(fs, fs1) {
      var p :| WentOverdrawn(fs, fs1, p);
      assert WentOverdrawn(fs, fs2, p);
    }
    if DropsOverdrawn(fs1, fs2) {
      var p :| WentOverdrawn(fs1, fs2, p);
      assert WentOverdrawn(fs, fs2, p);
    }
    if DropsOverdrawn(fs, fs2) {
      var p :| WentOverdrawn(fs, fs2, p);
      assert WentOverdrawn(fs, fs1, p) || WentOverdrawn(fs1, fs2, p);
    }
  }

  lemma SameCloses(fs: Fs, fs': Fs)
    requires SameEntries(fs, fs')
    ensures Closes(fs, fs')
  {
    SameEntriesDrift(fs, fs');
  }

  lemma DropCloses(fs: Fs, p: Ptr)
    requires p in fs.heap && p < fs.top
    ensures Closes(fs, Drop(fs, p))
  {
    DropDrift(fs, p);
    assert forall q :: WentOverdrawn(fs, Drop(fs, p), q) ==> q == p;
    if !IsLink(fs.heap[p]) && fs.heap[p].stat.alloc < 0 {
      assert WentOverdrawn(fs, Drop(fs, p), p);
    }
  }

  lemma GrowsSettles(fs: Fs, fs': Fs)
    requires Drift(fs') == Drift(fs) && forall p :: p in fs.heap ==> p in fs'.heap
    ensures Settles(fs, fs')
  {
  }

  lemma BornSettles(fs: Fs, e: Entry, parent: Option<Ptr>, name: string)
    requires Shape(fs, {}) && Newborn(fs, e) && LiveParent(fs, parent)
    ensures fs.top in Born(fs, e).heap && LiveParent(Born(fs, e), parent) && Settles(fs, Attach(Born(fs, e), fs.top, parent, name))
  {
    var fs1 := Born(fs, e);
    BornDrift(fs, {}, e);
    BornKeeps(fs, e);
    AttachSame(fs1, fs.top, parent, name);
    SameEntriesDrift(fs1, Attach(fs1, fs.top, parent, name));
    GrowsSettles(fs, Attach(fs1, fs.top, parent, name));
  }

  lemma CreateSettles(fs: Fs, rec: Record, parent: Option<Ptr>, src: Option<Ptr>, inodeNext: int)
    requires Valid(fs) && CreateReady(fs, rec, parent, src) && inodeNext != 0
    ensures Settles(fs, Create(fs, rec, parent, src, inodeNext).1)
  {
    var inode := if rec.inode == 0 then inodeNext else rec.inode;
    if Create(fs, rec, parent, src, inodeNext).0 == Success {
      NewEntryIsNewborn(fs, rec, parent, src, inode);
      BornSettles(fs, NewEntry(rec, parent, src, inode), parent, rec.me.name);
    }
  }

  lemma ReleaseCloses(fs: Fs, x: Ptr)
    requires x in fs.heap && x < fs.top
    ensures Closes(fs, Release(fs, x))
  {
    if fs.heap[x].nlink == 1 {
      DropCloses(fs, x);
    } else {
      NlinkSame(fs, x, -1);
      SameCloses(fs, Release(fs, x));
    }
  }

  lemma DoRemoveCloses(fs: Fs, p: Ptr)
    requires p in fs.heap && forall q :: q in fs.heap ==> q < fs.top
    requires IsLink(fs.heap[p]) ==> fs.heap[p].src.Some? && fs.heap[p].src.value in fs.heap && fs.heap[p].src.value != p
    ensures Closes(fs, DoRemove(fs, p))
  {
    if IsLink(fs.heap[p]) {
      var x := fs.heap[p].src.value;
      DropCloses(fs, p);
      ReleaseCloses(Drop(fs, p), x);
      ClosesTwice(fs, Drop(fs, p), DoRemove(fs, p));
    } else {
      ReleaseCloses(fs, p);
    }
  }

  lemma RemovedCloses(fs: Fs, p: Ptr)
    requires CanRemove(fs, p) && forall q :: q in fs.heap ==> q < fs.top
    ensures Closes(fs, Removed(fs, p))
  {
    DetachSame(fs, p);
    SameCloses(fs, Detach(fs, p));
    DoRemoveCloses(Detach(fs, p), p);
    ClosesTwice(fs, Detach(fs, p), Removed(fs, p));
  }

  lemma RemoveSettles(fs: Fs, rec: Record, parent: Option<Ptr>)
    requires Valid(fs) && LiveParent(fs, parent)
    ensures Settles(fs, Remove(fs, rec, parent).1)
  {
    if Remove(fs, rec, parent).0 == Success {
      FoundIsAttached(fs, parent, rec.me.name);
      var p := FindMe(fs, parent, rec.me.name).1.value;
      LeafOrFile(fs, p);
      RemovableEntry(fs, p);
      RemovedCloses(fs, p);
    }
  }

  lemma MovedCloses(fs: Fs, s: Ptr, dp: Ptr, name: string)
    requires s in fs.heap && dp in fs.heap && (fs.heap[s].parent.Some? ==> fs.heap[s].parent.value in fs.heap)
    ensures Closes(fs, Moved(fs, s, dp, name))
  {
    var fs1 := Detach(fs, s);
    DetachSame(fs, s);
    SameCloses(fs, fs1);
    AttachSame(fs1, s, Some(dp), name);
    SameCloses(fs1, Moved(fs, s, dp, name));
    ClosesTwice(fs, fs1, Moved(fs, s, dp, name));
  }

  lemma ExchangedCloses(fs: Fs, s: Ptr, sp: Ptr, d: Ptr, dp: Ptr)
    requires InPlace(fs, s, sp) && InPlace(fs, d, dp) && s != d
    ensures Closes(fs, Exchanged(fs, s, d))
  {
    var fs1 := Detach(fs, s);
    var fs2 := Detach(fs1, d);
    var fs3 := Attach(fs2, s, Some(dp), fs.heap[d].name);
    DetachSame(fs, s);
    SameCloses(fs, fs1);
    DetachStays(fs, s, d);
    DetachSame(fs1, d);
    SameCloses(fs1, fs2);
    ClosesTwice(fs, fs1, fs2);
    AttachSame(fs2, s, Some(dp), fs.heap[d].name);
    SameCloses(fs2, fs3);
    ClosesTwice(fs, fs2, fs3);
    AttachSame(fs3, d, Some(sp), fs.heap[s].name);
    SameCloses(fs3, Exchanged(fs, s, d));
    ClosesTwice(fs, fs3, Exchanged(fs, s, d));
  }

  lemma OverwrittenCloses(fs: Fs, s: Ptr, sp: Ptr, d: Ptr, dp: Ptr)
    requires Valid(fs) && InPlace(fs, s, sp) && Attached(fs, s) && InPlace(fs, d, dp) && s != d
    requires CanRemove(fs, d) && fs.heap[d].children == map[]
    ensures InPlace(Removed(fs, d), s, sp) && dp in Removed(fs, d).heap
    ensures Closes(fs, Moved(Removed(fs, d), s, dp, fs.heap[d].name))
  {
    OverwriteReady(fs, sp, dp, s, d);
    RemovedCloses(fs, d);
    MovedCloses(Removed(fs, d), s, dp, fs.heap[d].name);
    ClosesTwice(fs, Removed(fs, d), Moved(Removed(fs, d), s, dp, fs.heap[d].name));
  }

  lemma RenamedSettles(fs: Fs, rec: Record, sp: Ptr, dp: Ptr, s: Ptr, d: Option<Ptr>)
    requires Valid(fs) && Checked(fs, rec, sp, dp, s, d) && d != Some(s)
    ensures Settles(fs, Renamed(fs, rec, sp, dp, s, d))
  {
    if d.None? {
      MovedCloses(fs, s, dp, rec.me.name);
    } else if HasFlag(rec.flags, RENAME_EXCHANGE) {
      ExchangedCloses(fs, s, sp, d.value, dp);
    } else {
      RemovableEntry(fs, d.value);
      OverwrittenCloses(fs, s, sp, d.value, dp);
    }
  }

  lemma RenameSettles(fs: Fs, rec: Record, sp: Option<Ptr>, dp: Option<Ptr>)
    requires Valid(fs) && LiveParent(fs, sp) && LiveParent(fs, dp)
    ensures Settles(fs, Rename(fs, rec, sp, dp).1)
  {
    if Rename(fs, rec, sp, dp).0 == Success {
      CheckedOf(fs, rec, sp, dp);
      var (_, s, d) := RenameCheck(fs, rec, sp, dp);
      RenamedSettles(fs, rec, sp.value, dp.value, s.value, d);
    }
  }
}
