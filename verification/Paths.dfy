/** Full paths: looking one up, printing one, and how the two undo each other. */
module Paths {
  import opened Wrappers
  import opened Record
  import opened Dentry
  import opened DentryAccounting
  import opened DentryOps

  const MAX_PATH_COUNT := 128

  // ---------------------------------------------------------- splitting and joining

  function NextSlash(s: string): (k: nat)
    ensures k <= |s| && '/' !in s[..k] && (k < |s| ==> s[k] == '/')
  {
    if s == "" || s[0] == '/' then 0
    else
      var k := NextSlash(s[1..]);
      assert s[..k + 1] == [s[0]] + s[1..][..k];
      k + 1
  }

  /** The non-empty parts between slashes. */
  function Split(s: string): (parts: seq<string>)
    ensures forall i :: 0 <= i < |parts| ==> GoodName(parts[i])
    decreases |s|
  {
    if s == "" then []
    else if s[0] == '/' then Split(s[1..])
    else [s[..NextSlash(s)]] + Split(s[NextSlash(s)..])
  }

  /** The splitter fills an array of parts and leaves out what does not fit. */
  function PathParts(s: string): (parts: seq<string>)
    ensures |parts| <= MAX_PATH_COUNT && forall i :: 0 <= i < |parts| ==> GoodName(parts[i])
  {
    var parts := Split(s);
    if |parts| <= MAX_PATH_COUNT then parts else parts[..MAX_PATH_COUNT]
  }

  predicate GoodName(name: string) {
    name != "" && '/' !in name
  }

  function Join(parts: seq<string>): string {
    if parts == [] then "" else "/" + parts[0] + Join(parts[1..])
  }

  lemma {:induction false} NextSlashIs(s: string, k: nat)
    requires k <= |s| && '/' !in s[..k] && (k < |s| ==> s[k] == '/')
    ensures NextSlash(s) == k
  {
    if k > 0 {
      assert s[0] in s[..k];
      assert s[..k] == [s[0]] + s[1..][..k - 1];
      NextSlashIs(s[1..], k - 1);
    }
  }

  lemma SplitHead(name: string, rest: string)
    requires GoodName(name) && (rest == "" || rest[0] == '/')
    ensures Split("/" + name + rest) == [name] + Split(rest)
  {
    var s := name + rest;
    assert ("/" + name + rest)[1..] == s;
    assert s[..|name|] == name && s[|name|..] == rest;
    assert name[0] in name;
    NextSlashIs(s, |name|);
  }

  lemma {:induction false} SplitJoin(parts: seq<string>)
    requires forall i :: 0 <= i < |parts| ==> GoodName(parts[i])
    ensures Split(Join(parts)) == parts
  {
    if parts != [] {
      SplitJoin(parts[1..]);
      SplitHead(parts[0], Join(parts[1..]));
    }
  }

  lemma {:induction false} JoinSnoc(parts: seq<string>, last: string)
    ensures Join(parts + [last]) == Join(parts) + "/" + last
  {
    if parts == [] {
      assert Join([last]) == "/" + last + "";
    } else {
      JoinSnoc(parts[1..], last);
      assert (parts + [last])[1..] == parts[1..] + [last];
    }
  }

  // --------------------------------------------------------------------- looking up

  /** From a directory down a list of names. */
  function Walk(h: Heap, p: Ptr, parts: seq<string>): (r: (Code, Option<Ptr>))
    requires p in h
    ensures r.0 == Success ==> r.1.Some? && r.1.value in h
    decreases |parts|
  {
    if parts == [] then (Success, Some(p))
    else
      var (code, child) := FindChild(h, p, parts[0]);
      if code != Success then (code, None)
      else if child.value !in h then (NoEntry, None)
      else Walk(h, child.value, parts[1..])
  }

  ghost predicate RootLive(fs: Fs) {
    fs.root.Some? ==> fs.root.value in fs.heap
  }

  function Find(fs: Fs, path: string): (Code, Option<Ptr>)
    requires RootLive(fs)
  {
    if path == "" || path[0] != '/' then (Invalid, None)
    else if fs.root.None? then (NoEntry, None)
    else Walk(fs.heap, fs.root.value, PathParts(path))
  }

  /** A hard link stands for its file. */
  function Follow(h: Heap, p: Ptr): Option<Ptr>
    requires p in h
  {
    if IsLink(h[p]) then h[p].src else Some(p)
  }

  /** The directory a path names a place in, and the name; no directory for the
      root path. */
  function FindParent(fs: Fs, path: string): (Code, Option<Ptr>, string)
    requires RootLive(fs)
  {
    if path == "" || path[0] != '/' then (Invalid, None, "")
    else if fs.root.None? then (NoEntry, None, "")
    else
      var parts := PathParts(path);
      if parts == [] then (Success, None, "")
      else
        var name := parts[|parts| - 1];
        var (code, dir) := Walk(fs.heap, fs.root.value, parts[..|parts| - 1]);
        if code != Success then (code, None, name)
        else if !IsDir(fs.heap[dir.value]) then (NotDir, None, name)
        else (Success, dir, name)
  }

  // ----------------------------------------------------- names along a chain of parents

  function Parts(h: Heap, up: seq<Ptr>): seq<string>
    requires forall i :: 0 <= i < |up| ==> up[i] in h
  {
    if |up| <= 1 then [] else Parts(h, up[1..]) + [h[up[0]].name]
  }

  lemma {:induction false} WalkSnoc(h: Heap, p: Ptr, parts: seq<string>, last: string)
    requires p in h
    ensures var (code, dir) := Walk(h, p, parts);
      Walk(h, p, parts + [last]) ==
        if code != Success then (code, None) else Walk(h, dir.value, [last])
    decreases |parts|
  {
    if parts == [] {
      assert parts + [last] == [last];
    } else {
      assert (parts + [last])[1..] == parts[1..] + [last];
      var (code, child) := FindChild(h, p, parts[0]);
      if code == Success && child.value in h {
        WalkSnoc(h, child.value, parts[1..], last);
      }
    }
  }

  lemma AttachedStep(fs: Fs, up: seq<Ptr>)
    requires Shape(fs, {}) && IsChain(fs.heap, {}, up) && |up| > 1 && Attached(fs, up[0])
    ensures FindChild(fs.heap, up[1], fs.heap[up[0]].name) == (Success, Some(up[0]))
    ensures Attached(fs, up[1])
  {
    ChainEnds(fs.heap, {}, up);
    var name := fs.heap[up[0]].name;
    assert ChildOk(fs.heap, {}, up[1], name);
    assert IsDir(fs.heap[up[1]]);
    assert Attached(fs, up[1]);
  }

  /** The names on the way up from an entry lead down to it. */
  lemma {:induction false} WalkParts(fs: Fs, up: seq<Ptr>)
    requires Shape(fs, {}) && IsChain(fs.heap, {}, up) && Attached(fs, up[0])
    ensures fs.root.Some? && fs.root.value in fs.heap
    ensures Walk(fs.heap, fs.root.value, Parts(fs.heap, up)) == (Success, Some(up[0]))
  {
    ChainEnds(fs.heap, {}, up);
    if |up| > 1 {
      AttachedStep(fs, up);
      ChainTail(fs.heap, {}, up);
      WalkParts(fs, up[1..]);
      WalkSnoc(fs.heap, fs.root.value, Parts(fs.heap, up[1..]), fs.heap[up[0]].name);
    }
  }

  ghost predicate GoodNames(h: Heap, up: seq<Ptr>)
    requires forall i :: 0 <= i < |up| ==> up[i] in h
  {
    forall i :: 0 <= i < |up| - 1 ==> GoodName(h[up[i]].name)
  }

  lemma {:induction false} PartsGood(h: Heap, up: seq<Ptr>)
    requires (forall i :: 0 <= i < |up| ==> up[i] in h) && GoodNames(h, up)
    ensures forall i :: 0 <= i < |Parts(h, up)| ==> GoodName(Parts(h, up)[i])
    ensures |Parts(h, up)| == if up == [] then 0 else |up| - 1
  {
    if |up| > 1 {
      PartsGood(h, up[1..]);
    }
  }

  /** What a walk finds has a chain of parents with the walked names. */
  lemma {:induction false} WalkFinds(fs: Fs, parts: seq<string>) returns (up: seq<Ptr>)
    requires Shape(fs, {}) && fs.root.Some? && Walk(fs.heap, fs.root.value, parts).0 == Success
    ensures IsChain(fs.heap, {}, up) && Parts(fs.heap, up) == parts
    ensures Walk(fs.heap, fs.root.value, parts).1 == Some(up[0]) && Attached(fs, up[0])
  {
    var root := fs.root.value;
    if parts == [] {
      up := [root];
    } else {
      var n := |parts| - 1;
      assert parts == parts[..n] + [parts[n]];
      WalkSnoc(fs.heap, root, parts[..n], parts[n]);
      var rest := WalkFinds(fs, parts[..n]);
      var dir := rest[0];
      assert FindChild(fs.heap, dir, parts[n]).0 == Success;
      ChildInPlace(fs, dir, parts[n]);
      var p := FindChild(fs.heap, dir, parts[n]).1.value;
      up := [p] + rest;
      assert up[1..] == rest;
      assert Walk(fs.heap, dir, [parts[n]]) == (Success, Some(p));
      PrependChain(fs.heap, p, rest);
    }
  }

  lemma PrependChain(h: Heap, p: Ptr, rest: seq<Ptr>)
    requires IsChain(h, {}, rest) && p in h && h[p].parent == Some(rest[0])
    ensures IsChain(h, {}, [p] + rest)
  {
    var up := [p] + rest;
    forall i | 0 <= i < |up| - 1
      ensures h[up[i]].parent == Some(up[i + 1])
    {
      if i > 0 {
        assert up[i] == rest[i - 1] && up[i + 1] == rest[i - 1 + 1];
      }
    }
  }

  /** Looking up the printed path of an entry finds the entry if and only if it
      is not the root, whose printed path is empty, and not too deep. */
  lemma PrintedPathFinds(fs: Fs, up: seq<Ptr>)
    requires Shape(fs, {}) && IsChain(fs.heap, {}, up) && Attached(fs, up[0]) && GoodNames(fs.heap, up)
    ensures Find(fs, Join(Parts(fs.heap, up))) == (Success, Some(up[0])) <==> 1 <= |up| - 1 <= MAX_PATH_COUNT
  {
    var path := Join(Parts(fs.heap, up));
    PartsGood(fs.heap, up);
    SplitJoin(Parts(fs.heap, up));
    WalkParts(fs, up);
    if |up| - 1 > MAX_PATH_COUNT && Find(fs, path) == (Success, Some(up[0])) {
      TooDeep(fs, up, PathParts(path));
    }
  }

  /** No list of so few names leads to an entry as deep as this. */
  lemma TooDeep(fs: Fs, up: seq<Ptr>, parts: seq<string>)
    requires Shape(fs, {}) && IsChain(fs.heap, {}, up) && |parts| < |up| - 1 && fs.root.Some?
    ensures Walk(fs.heap, fs.root.value, parts) != (Success, Some(up[0]))
  {
    if Walk(fs.heap, fs.root.value, parts) == (Success, Some(up[0])) {
      var way := WalkFinds(fs, parts);
      PartsLength(fs.heap, way);
      ChainUnique(fs.heap, {}, way, up);
    }
  }

  lemma {:induction false} PartsLength(h: Heap, up: seq<Ptr>)
    requires up != [] && forall i :: 0 <= i < |up| ==> up[i] in h
    ensures |Parts(h, up)| == |up| - 1
  {
    if |up| > 1 {
      PartsLength(h, up[1..]);
    }
  }

  /** Printing what a path led to gives the path back without empty parts. */
  lemma FoundPathPrints(fs: Fs, path: string) returns (up: seq<Ptr>)
    requires Shape(fs, {}) && Find(fs, path).0 == Success
    ensures IsChain(fs.heap, {}, up) && Attached(fs, up[0]) && Find(fs, path).1 == Some(up[0])
    ensures Join(Parts(fs.heap, up)) == Join(PathParts(path))
  {
    up := WalkFinds(fs, PathParts(path));
  }

  // ----------------------------------------------------------------------- printing

  lemma {:induction false} PartAt(h: Heap, up: seq<Ptr>, i: nat)
    requires (forall i :: 0 <= i < |up| ==> up[i] in h) && i < |up| - 1
    ensures |Parts(h, up)| == |up| - 1 && Parts(h, up)[|up| - 2 - i] == h[up[i]].name
  {
    if i > 0 {
      PartAt(h, up[1..], i - 1);
    } else if |up| > 2 {
      PartAt(h, up[1..], 0);
    }
  }

  lemma JoinMore(parts: seq<string>, n: nat)
    requires n < |parts|
    ensures Join(parts[..n + 1]) == Join(parts[..n]) + "/" + parts[n]
  {
    assert parts[..n + 1] == parts[..n] + [parts[n]];
    JoinSnoc(parts[..n], parts[n]);
  }

  lemma {:induction false} JoinGrows(parts: seq<string>, n: nat)
    requires n <= |parts|
    ensures |Join(parts[..n])| <= |Join(parts)|
    decreases |parts| - n
  {
    if n < |parts| {
      JoinMore(parts, n);
      JoinGrows(parts, n + 1);
    } else {
      assert parts[..n] == parts;
    }
  }

  lemma ChainStops(h: Heap, up: seq<Ptr>, n: nat)
    requires IsChain(h, {}, up) && n < |up| && h[up[n]].parent == None
    ensures |up| == n + 1
  {
    SuffixChain(h, up, n);
    ChainEnds(h, {}, up[n..]);
  }

  /** The path is printed unless it is too deep or does not fit the buffer
      together with its terminator. */
  method GetFullPath(fs: Fs, p: Ptr, size: nat, ghost up: seq<Ptr>) returns (code: Code, path: string)
    requires IsChain(fs.heap, {}, up) && up[0] == p
    ensures code == if |up| - 1 > MAX_PATH_COUNT then Overflow
                    else if |up| > 1 && |Join(Parts(fs.heap, up))| + 1 > size then NoSpace
                    else Success
    ensures code == Success ==> path == Join(Parts(fs.heap, up))
  {
    var names: seq<string> := [];
    var current := p;
    ChainEnds(fs.heap, {}, up);
    while fs.heap[current].parent.Some? && |names| < MAX_PATH_COUNT
      invariant |names| < |up| && current == up[|names|] && |names| <= MAX_PATH_COUNT
      invariant forall i :: 0 <= i < |names| ==> names[i] == fs.heap[up[i]].name
      decreases MAX_PATH_COUNT - |names|
    {
      names := names + [fs.heap[current].name];
      current := fs.heap[current].parent.value;
    }
    path := "";
    if |names| == MAX_PATH_COUNT && fs.heap[current].parent.Some? {
      return Overflow, path;
    }
    ghost var parts := Parts(fs.heap, up);
    ChainStops(fs.heap, up, |names|);
    assert |names| > 0 ==> |parts| == |names| by {
      if |names| > 0 {
        PartAt(fs.heap, up, 0);
      }
    }
    var i := |names|;
    while i > 0
      invariant 0 <= i <= |names| && path == Join(parts[..|names| - i])
      invariant i < |names| ==> |path| + 1 <= size
    {
      i := i - 1;
      PartAt(fs.heap, up, i);
      JoinMore(parts, |names| - 1 - i);
      JoinGrows(parts, |names| - i);
      if |path| + |names[i]| + 2 > size {
        return NoSpace, "";
      }
      path := path + "/" + names[i];
    }
    assert parts[..|names|] == parts;
    return Success, path;
  }

  /** Printing succeeds exactly when the entry is not too deep and its path fits
      the buffer, and then looking the path up finds the entry again, unless it is
      the root. */
  method PrintAndFind(fs: Fs, p: Ptr, size: nat, ghost up: seq<Ptr>) returns (code: Code, path: string, found: (Code, Option<Ptr>))
    requires Shape(fs, {}) && IsChain(fs.heap, {}, up) && up[0] == p && Attached(fs, p) && GoodNames(fs.heap, up)
    ensures code == Success <==> |up| - 1 <= MAX_PATH_COUNT && (|up| == 1 || |Join(Parts(fs.heap, up))| + 1 <= size)
    ensures code == Success ==> found == if fs.root == Some(p) then (Invalid, None) else (Success, Some(p))
  {
    code, path := GetFullPath(fs, p, size, up);
    found := Find(fs, path);
    PrintedPathFinds(fs, up);
    OnlyRootIsTop(fs, up);
  }

  lemma OnlyRootIsTop(fs: Fs, up: seq<Ptr>)
    requires Shape(fs, {}) && IsChain(fs.heap, {}, up) && Attached(fs, up[0])
    ensures |up| == 1 <==> fs.root == Some(up[0])
    ensures |up| == 1 ==> Join(Parts(fs.heap, up)) == ""
  {
    ChainEnds(fs.heap, {}, up);
  }
}
