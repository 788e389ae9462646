/**
 The positioned reader of the binlog: opening at a data version, from a hint or
 by searching the files, and reading whole records from there on. It works on
 the bytes of the files; what it does is stated in terms of their records.
 */
module BinlogReader {
  import opened Wrappers
  import opened BinlogPack
  import opened BinlogScan
  import opened BinlogSlices
  import opened Dentry

  /** The records of a file. */
  type File = seq<Rec>

  const READ_ONCE := 2048

  ghost predicate FileHolds(bytes: string, file: File) {
    GoodTexts(file) && Versioned(file) && bytes == Lines(file) && forall i :: 0 <= i < |file| ==> file[i].version > 0
  }

  /** The bytes of the log's files are those of these records. */
  ghost predicate Holds(log: seq<string>, files: seq<File>) {
    && log != [] && |files| == |log|
    && forall i {:trigger FileHolds(log[i], files[i])} :: 0 <= i < |log| ==> FileHolds(log[i], files[i])
  }

  function Flat(files: seq<File>): seq<Rec> {
    if files == [] then [] else Flat(files[..|files| - 1]) + files[|files| - 1]
  }

  ghost predicate Older(a: Rec, b: Rec) {
    a.version < b.version
  }

  ghost predicate Increasing(recs: seq<Rec>) {
    forall i, j {:trigger Older(recs[i], recs[j])} :: 0 <= i < j < |recs| ==> Older(recs[i], recs[j])
  }

  /** Files whose versions increase through all of them. */
  type Files = files: seq<File> | Increasing(Flat(files))

  lemma {:induction false} FlatSplit(files: seq<File>, i: nat)
    requires i < |files|
    ensures Flat(files) == Flat(files[..i]) + files[i] + Flat(files[i + 1..])
  {
    var n := |files| - 1;
    if i == n {
      assert files[i + 1..] == [];
    } else {
      FlatSplit(files[..n], i);
      assert files[..n][..i] == files[..i];
      assert files[i + 1..][..n - i - 1] == files[..n][i + 1..];
      assert Flat(files[i + 1..]) == Flat(files[..n][i + 1..]) + files[n];
    }
  }

  // ------------------------------------------------------------------------ positions

  /** How many records lie before record k of file i. */
  ghost function Rank(files: seq<File>, i: nat, k: nat): nat
    requires i < |files|
  {
    |Flat(files[..i])| + k
  }

  lemma RankInFlat(files: seq<File>, i: nat, k: nat)
    requires i < |files| && k <= |files[i]|
    ensures Rank(files, i, |files[i]|) <= |Flat(files)|
    ensures k < |files[i]| ==> Flat(files)[Rank(files, i, k)] == files[i][k]
  {
    FlatSplit(files, i);
  }

  lemma RanksInFlat(files: seq<File>, i: nat, k: nat, m: nat)
    requires i < |files| && k <= m <= |files[i]|
    ensures Rank(files, i, m) <= |Flat(files)| && Flat(files)[Rank(files, i, k)..Rank(files, i, m)] == files[i][k..m]
  {
    FlatSplit(files, i);
    Middle(Flat(files[..i]), files[i], Flat(files[i + 1..]), k, m);
  }

  lemma Middle(left: seq<Rec>, middle: seq<Rec>, right: seq<Rec>, k: nat, m: nat)
    requires k <= m <= |middle|
    ensures (left + middle + right)[|left| + k..|left| + m] == middle[k..m]
  {
  }

  lemma NextFile(files: seq<File>, i: nat)
    requires i + 1 < |files|
    ensures Rank(files, i + 1, 0) == Rank(files, i, |files[i]|)
  {
    assert files[..i + 1][..i] == files[..i];
  }

  lemma LastFile(files: seq<File>)
    requires files != []
    ensures Rank(files, |files| - 1, |files[|files| - 1]|) == |Flat(files)|
  {
    assert files[..|files| - 1] + [files[|files| - 1]] == files;
  }

  /** The position is between the records up to v and those above it. */
  ghost predicate Splits(recs: seq<Rec>, rank: nat, v: int) {
    && rank <= |recs|
    && (forall i :: 0 <= i < rank ==> recs[i].version <= v)
    && (forall i :: rank <= i < |recs| ==> recs[i].version > v)
  }

  lemma SplitsAt(recs: seq<Rec>, rank: nat, v: int)
    requires Increasing(recs) && rank <= |recs|
    requires rank > 0 ==> recs[rank - 1].version <= v
    requires rank < |recs| ==> recs[rank].version > v
    ensures Splits(recs, rank, v)
  {
    forall i | 0 <= i < rank - 1
      ensures recs[i].version <= v
    {
      assert Older(recs[i], recs[rank - 1]);
    }
    forall i | rank < i < |recs|
      ensures recs[i].version > v
    {
      assert Older(recs[rank], recs[i]);
    }
  }

  lemma SplitsAfter(files: Files, i: nat, k: nat, v: int)
    requires i < |files| && k < |files[i]| && files[i][k].version == v
    ensures Splits(Flat(files), Rank(files, i, k + 1), v)
  {
    RankInFlat(files, i, k);
    var flat, rank := Flat(files), Rank(files, i, k);
    assert rank + 1 < |flat| ==> Older(flat[rank], flat[rank + 1]);
    SplitsAt(flat, rank + 1, v);
  }

  lemma SplitsBetween(files: Files, i: nat, k: nat, v: int)
    requires i < |files| && k + 1 < |files[i]| && files[i][k].version < v < files[i][k + 1].version
    ensures Splits(Flat(files), Rank(files, i, k + 1), v)
  {
    RankInFlat(files, i, k);
    RankInFlat(files, i, k + 1);
    SplitsAt(Flat(files), Rank(files, i, k + 1), v);
  }

  // ----------------------------------------------------------- versions across files

  lemma {:induction false} RankGrows(files: seq<File>, i: nat, j: nat)
    requires i < j < |files|
    ensures Rank(files, i, |files[i]|) <= Rank(files, j, 0)
  {
    NextFile(files, j - 1);
    if i < j - 1 {
      RankGrows(files, i, j - 1);
    }
  }

  lemma FileOrder(files: Files, i: nat, j: nat, k: nat, m: nat)
    requires i < j < |files| && k < |files[i]| && m < |files[j]|
    ensures files[i][k].version < files[j][m].version
  {
    RankInFlat(files, i, k);
    RankInFlat(files, j, m);
    RankGrows(files, i, j);
    assert Older(Flat(files)[Rank(files, i, k)], Flat(files)[Rank(files, j, m)]);
  }

  /** The versions of the file reach from v or below to v or above. */
  ghost predicate Covers(file: File, v: int) {
    file != [] && file[0].version <= v <= file[|file| - 1].version
  }

  /** No file up to one that ends below v covers v. */
  lemma BelowNotCovered(files: Files, i: nat, j: nat, v: int)
    requires i <= j < |files| && files[j] != [] && files[j][|files[j]| - 1].version < v
    ensures !Covers(files[i], v)
  {
    if i < j && files[i] != [] {
      FileOrder(files, i, j, |files[i]| - 1, |files[j]| - 1);
    }
  }

  /** No file from one on that starts above v covers v. */
  lemma AboveNotCovered(files: Files, i: nat, j: nat, v: int)
    requires j <= i < |files| && files[j] != [] && files[j][0].version > v
    ensures !Covers(files[i], v)
  {
    if j < i && files[i] != [] {
      FileOrder(files, j, i, 0, 0);
    }
  }

  // ------------------------------------------------------------- first and last version

  /** The size of a record's line. */
  function Size(rec: Rec): nat {
    |rec.text| + 14
  }

  /** The first and the last version of a file can be found: it has records and
      these two fit the buffer they are looked for in. */
  ghost predicate Readable(file: File) {
    file != [] && Size(file[0]) <= MAX_SIZE && Size(file[|file| - 1]) <= MAX_SIZE
  }

  function Min(a: int, b: int): int {
    if a <= b then a else b
  }

  lemma FirstFits(file: File, bytes: string)
    requires FileHolds(bytes, file)
    ensures Off(file, 0) == 0 && (file == [] ==> bytes == "")
    ensures file != [] ==> Off(file, 1) == Size(file[0]) <= |bytes| && MIN_SIZE <= Size(file[0])
  {
    OffEnd(file);
    if file != [] {
      OffMonotone(file, 1, |file|);
      assert GoodText(file[0].text);
    }
  }

  /** Reads the start of a file piece by piece until it holds the first record. */
  method FirstRecordVersion(bytes: string, ghost file: File) returns (code: Code, version: int)
    requires FileHolds(bytes, file)
    ensures code == Success <==> file != [] && Size(file[0]) <= MAX_SIZE
    ensures code == Success ==> version == file[0].version
  {
    code, version := NoEntry, 0;
    FirstFits(file, bytes);
    var offset, n := 0, READ_ONCE;
    while n > 0
      invariant 0 <= offset <= Min(MAX_SIZE, |bytes|) && n == Min(READ_ONCE, MAX_SIZE - offset) && code != Success
      invariant offset > 0 ==> file != [] && offset < Size(file[0])
      decreases MAX_SIZE - offset
    {
      n := Min(n, |bytes| - offset);
      offset := offset + n;
      var end;
      code, end, version := DetectAt(bytes[..offset], file, bytes, 0, 0, offset);
      if code != Overflow {
        return;
      }
      n := Min(READ_ONCE, MAX_SIZE - offset);
    }
  }

  lemma LastFits(file: File, bytes: string, a: nat)
    requires FileHolds(bytes, file) && a <= |bytes|
    ensures EndBefore(file, |bytes|) == |file| && (file == [] <==> bytes == "")
    ensures forall i: nat :: i + 1 == |file| ==> (Inside(file, a, |bytes|, i) <==> |bytes| - a >= Size(file[i]))
  {
    OffEnd(file);
    var m := EndBefore(file, |bytes|);
    if m < |file| {
      OffMonotone(file, m + 1, |file|);
    }
    if file != [] {
      OffGrows(file, 0, |file|);
    }
  }

  /** Scans the end of a file backward for its last record. */
  method LastRecordVersion(bytes: string, ghost file: File) returns (code: Code, version: int)
    requires FileHolds(bytes, file)
    ensures code == Success <==> file != [] && Size(file[|file| - 1]) <= MAX_SIZE
    ensures code == Success ==> version == file[|file| - 1].version
  {
    version := 0;
    if bytes == "" {
      LastFits(file, bytes, 0);
      return NoEntry, version;
    }
    var a := |bytes| - Min(|bytes|, MAX_SIZE);
    LastFits(file, bytes, a);
    var start, end;
    code, start, end, version := ScanReverse(bytes[a..], file, bytes, a, |bytes|);
  }

  // ------------------------------------------------------------------- finding a version

  /** The record is at v or above it, and all before it are below. */
  ghost predicate Target(file: File, v: int, i: nat) {
    i < |file| && file[i].version >= v && forall j :: 0 <= j < i ==> file[j].version < v
  }

  /** The records up to the first at v or above it fit the read buffer. */
  ghost predicate RoomTo(file: File, v: int, size: nat) {
    exists i {:trigger Target(file, v, i)} :: Target(file, v, i) && forall j {:trigger Size(file[j])} :: 0 <= j <= i ==> Size(file[j]) <= size
  }

  /** The records before k are below v and fit the read buffer. */
  ghost predicate Passed(file: File, v: int, size: nat, k: nat)
    requires k <= |file|
  {
    forall j :: 0 <= j < k ==> file[j].version < v && Size(file[j]) <= size
  }

  lemma TooLarge(file: File, v: int, size: nat, k: nat)
    requires k < |file| && Size(file[k]) > size && forall j :: 0 <= j < k ==> file[j].version < v
    ensures !RoomTo(file, v, size)
  {
  }

  /** Whether a search that starts at file from finds v: some file covers it, all
      files on the way can be read, and so can the records up to v. */
  ghost predicate Reaches(files: seq<File>, from: nat, v: int, size: nat) {
    exists i {:trigger ReachesAt(files, from, v, size, i)} :: 0 <= i < |files| && ReachesAt(files, from, v, size, i)
  }

  ghost predicate ReachesAt(files: seq<File>, from: nat, v: int, size: nat, i: nat)
    requires i < |files|
  {
    && Covers(files[i], v) && RoomTo(files[i], v, size)
    && forall j {:trigger Readable(files[j])} :: 0 <= j < |files| && (from <= j <= i || i <= j <= from) ==> Readable(files[j])
  }

  // -------------------------------------------------------------------------- reader

  class Reader {
    var index: nat
    var offset: nat

    /** The position is the start of record k of its file, or the file's end. */
    ghost predicate At(files: seq<File>, k: nat)
      reads this
    {
      index < |files| && k <= |files[index]| && offset == Off(files[index], k)
    }

    constructor ()
      ensures index == 0 && offset == 0
    {
      index, offset := 0, 0;
    }

    /** Bytes of the current file from the position on, at most size of them. */
    method ReadBytes(log: seq<string>, size: nat) returns (buff: string)
      requires index < |log|
      modifies this`offset
      ensures old(offset) >= |log[index]| ==> buff == "" && offset == old(offset)
      ensures old(offset) < |log[index]| ==>
                offset == Min(old(offset) + size, |log[index]|) && buff == log[index][old(offset)..offset]
    {
      buff := "";
      if offset < |log[index]| {
        var end := Min(offset + size, |log[index]|);
        buff := log[index][offset..end];
        offset := end;
      }
    }

    /** Checks record after record in the buffer, which holds the file from record
        k up to the offset, until one is at v or above it. */
    method ScanBuffer(buff: string, v: int, ghost files: Files, ghost bytes: string, ghost k: nat, ghost size: nat)
        returns (found: bool, rest: string, ghost k': nat)
      requires index < |files| && FileHolds(bytes, files[index]) && Covers(files[index], v)
      requires k < |files[index]| && Off(files[index], k) <= offset <= |bytes|
      requires buff == bytes[Off(files[index], k)..offset] && |buff| <= size && Passed(files[index], v, size, k)
      modifies this`offset
      ensures found ==> At(files, k') && Splits(Flat(files), Rank(files, index, k'), v) && RoomTo(files[index], v, size)
      ensures !found ==> offset == old(offset) && k' < |files[index]| && Off(files[index], k') <= offset < Off(files[index], k' + 1)
      ensures !found ==> rest == bytes[Off(files[index], k')..offset] && |rest| <= size && Passed(files[index], v, size, k')
    {
      ghost var file, start := files[index], Off(files[index], k);
      found, rest, k' := false, buff, k;
      while true
        invariant k' < |file| && start == Off(file, k') <= offset == old(offset)
        invariant rest == bytes[start..offset] && |rest| <= size && Passed(file, v, size, k')
        decreases |rest|
      {
        var code, end, version := DetectAt(rest, file, bytes, k', start, offset);
        if code != Success {
          return;
        }
        if version >= v {
          FitsHere(file, v, size, k');
          found := true;
          if version == v {
            offset := offset - (|rest| - end);
            SplitsAfter(files, index, k', v);
            k' := k' + 1;
          } else {
            offset := offset - |rest|;
            SplitsBefore(files, index, k', v);
          }
          return;
        }
        PassedOn(file, v, size, k');
        rest := rest[end..];
        start := start + end;
        k' := k' + 1;
      }
    }

    /** Scans a file through a buffer for the place behind version v. */
    method FindVersion(log: seq<string>, v: int, size: nat, ghost files: Files) returns (code: Code, ghost k: nat)
      requires Holds(log, files) && index < |log| && Covers(files[index], v)
      modifies this`offset
      ensures code == Success <==> RoomTo(files[index], v, size)
      ensures code == Success ==> At(files, k) && Splits(Flat(files), Rank(files, index, k), v)
    {
      ghost var file := files[index];
      var bytes := log[index];
      var buff, found := "", false;
      offset := 0;
      k := 0;
      assert FileHolds(bytes, file);
      FirstFits(file, bytes);
      while true
        invariant k < |file| && Off(file, k) <= offset <= |bytes| && offset < Off(file, k + 1)
        invariant buff == bytes[Off(file, k)..offset] && |buff| <= size && Passed(file, v, size, k)
        decreases |bytes| - offset
      {
        if size - |buff| == 0 {
          TooLarge(file, v, size, k);
          return NoSpace, k;
        }
        MoreToRead(file, bytes, k, offset);
        var more := ReadBytes(log, size - |buff|);
        JoinBytes(bytes, Off(file, k), offset - |more|, offset);
        found, buff, k := ScanBuffer(buff + more, v, files, bytes, k, size);
        if found {
          return Success, k;
        }
      }
    }

    /** Moves from file to file, in one direction, until one covers v. */
    method Search(log: seq<string>, v: int, size: nat, ghost files: Files) returns (code: Code, ghost k: nat)
      requires Holds(log, files) && index < |log|
      modifies this
      ensures code == Success <==> Reaches(files, old(index), v, size)
      ensures code == Success ==> At(files, k) && Splits(Flat(files), Rank(files, index, k), v)
    {
      var direction := 0;
      k := 0;
      while true
        invariant index < |log| && -1 <= direction <= 1 && OnTheWay(files, old(index), index, direction, v)
        decreases if direction == 0 then 1 else 0, if direction > 0 then |log| - index else index
      {
        assert FileHolds(log[index], files[index]);
        var first, least := FirstRecordVersion(log[index], files[index]);
        if first != Success {
          StuckAt(files, old(index), index, direction, v, size);
          return first, k;
        }
        var last, most := LastRecordVersion(log[index], files[index]);
        if last != Success {
          StuckAt(files, old(index), index, direction, v, size);
          return last, k;
        }
        if v < least {
          if direction == 0 {
            direction := -1;
          } else if direction > 0 {
            NotReached(files, old(index), index, v, size);
            return Busy, k;
          }
          if index > 0 {
            index := index - 1;
          } else {
            NotReached(files, old(index), 0, v, size);
            return Fault, k;
          }
        } else if v > most {
          if direction == 0 {
            direction := 1;
          } else if direction < 0 {
            NotReached(files, old(index), index + 1, v, size);
            return Busy, k;
          }
          if index < |log| - 1 {
            index := index + 1;
          } else {
            NotReached(files, old(index), |files|, v, size);
            return Fault, k;
          }
        } else {
          CoveredHere(files, old(index), index, direction, v, size);
          code, k := FindVersion(log, v, size, files);
          return;
        }
      }
    }

    /** Scans the bytes from the position on for version v. */
    method LookAround(log: seq<string>, v: int, ghost files: Files) returns (found: bool, ghost k: nat)
      requires Holds(log, files) && index < |log| && FileHolds(log[index], files[index])
      modifies this`offset
      ensures found <==> InWindow(log[index], files[index], old(offset), v)
      ensures found ==> At(files, k) && Splits(Flat(files), Rank(files, index, k), v)
    {
      found, k := false, 0;
      var bytes := log[index];
      ghost var file := files[index];
      offset := Min(offset, |bytes|);
      var end := Min(offset + MAX_SIZE + 1, |bytes|);
      var pos := offset;
      while end - pos >= MIN_SIZE
        invariant offset == Min(old(offset), |bytes|) <= pos <= end && NotBefore(file, offset, end, pos, v)
      {
        var result, start, stop, version := ScanForward(bytes[pos..end], file, bytes, pos, end);
        if result != Success {
          break;
        }
        ghost var i := StartAfter(file, pos);
        if version == v {
          FoundInWindow(file, offset, end, pos, v);
          offset := pos + stop;
          SplitsAfter(files, index, i, v);
          return true, i + 1;
        }
        PassOne(file, offset, end, pos, v);
        pos := pos + stop;
      }
      NothingInWindow(file, offset, end, pos, v);
    }

    /** Looks for version v right where the hint points; searches the files when
        it is not there. */
    method DetectOpen(log: seq<string>, v: int, size: nat, ghost files: Files) returns (code: Code, ghost k: nat)
      requires Holds(log, files)
      modifies this
      ensures code == Success <==> Opens(log, files, old(index), old(offset), v, size)
      ensures code == Success ==> At(files, k) && Splits(Flat(files), Rank(files, index, k), v)
    {
      k := 0;
      if index >= |log| {
        if index == 0 || index - 1 >= |log| {
          return NoEntry, k;
        }
        index := index - 1;
        offset := 0;
      }
      assert FileHolds(log[index], files[index]);
      var found;
      found, k := LookAround(log, v, files);
      if found {
        return Success, k;
      }
      code, k := Search(log, v, size, files);
    }

    /** Opens the reader behind version v, from any hint. */
    method Open(log: seq<string>, hintIndex: nat, hintOffset: nat, v: nat, size: nat, ghost files: Files)
        returns (code: Code, ghost k: nat)
      requires Holds(log, files)
      modifies this
      ensures code == Success <==> v == 0 || Opens(log, files, hintIndex, Before(hintOffset), v, size)
      ensures code == Success ==> At(files, k) && Splits(Flat(files), Rank(files, index, k), v)
    {
      if v == 0 {
        index, offset, k := 0, 0, 0;
        AllPositive(log, files);
        return Success, 0;
      }
      index := hintIndex;
      offset := Before(hintOffset);
      code, k := DetectOpen(log, v, size, files);
    }

    /** Keeps the whole records among the bytes just read and goes back to the end
        of the last of them. When the bytes do not start with a whole record, the
        position stays behind them. */
    method KeepWhole(buff: string, ghost size: nat, ghost file: File, ghost bytes: string, ghost k: nat, ghost start: nat)
        returns (code: Code, kept: string, first: int, last: int, ghost k': nat)
      requires FileHolds(bytes, file) && start < |bytes| && offset == Min(start + size, |bytes|) && buff == bytes[start..offset]
      requires NoStart(file, start) || (k < |file| && start == Off(file, k))
      modifies this`offset
      ensures NoStart(file, start) || Size(file[k]) > size ==> code != Success && code != NoEntry && offset == old(offset)
      ensures !NoStart(file, start) && Size(file[k]) > size ==> code == if size < MIN_SIZE then NoData else Overflow
      ensures !NoStart(file, start) && Size(file[k]) <= size ==> code == Success && Filled(file, k, size, k') && offset == Off(file, k')
      ensures code == Success ==> kept == Lines(file[k..k']) && first == file[k].version && last == file[k' - 1].version
    {
      kept, last, k' := "", 0, k;
      var end;
      code, end, first := DetectAnywhere(buff, file, bytes, k, start, offset);
      if !NoStart(file, start) {
        RecordEnds(file, bytes, k);
      }
      if code != Success {
        code := if code == NoEntry then NoData else code;
        return;
      }
      ghost var i := LastFilled(file, bytes, k, size, offset);
      k' := i + 1;
      KeptBytes(file, bytes, k, k', offset, buff);
      var begin;
      code, begin, end, last := ScanReverse(buff, file, bytes, start, offset);
      kept := buff[..end];
      offset := offset - (|buff| - end);
    }

    /** The position is inside a record. */
    ghost predicate Astray(log: seq<string>, files: seq<File>)
      requires |files| == |log|
      reads this
    {
      index < |log| && offset < |log[index]| && NoStart(files[index], offset)
    }

    /** Reads bytes, going on to the next file at the end of one. */
    method ReadToBuffer(log: seq<string>, size: nat, ghost files: seq<File>, ghost k: nat)
        returns (buff: string, ghost k1: nat, ghost start: nat)
      requires Holds(log, files) && size > 0 && (Astray(log, files) || At(files, k))
      modifies this
      ensures old(Astray(log, files)) ==> index == old(index) && start == old(offset) && buff != ""
      ensures !old(Astray(log, files)) ==>
                && index == NextIndex(files, old(index), k) && k1 == NextRecord(files, old(index), k) <= |files[index]|
                && start == Off(files[index], k1) && (buff == "" <==> k1 == |files[index]|)
      ensures index < |log| && FileHolds(log[index], files[index])
      ensures start <= offset == Min(start + size, |log[index]|) && buff == log[index][start..offset]
    {
      k1, start := k, offset;
      assert FileHolds(log[index], files[index]);
      if !Astray(log, files) {
        AtEnd(files[index], log[index], k);
      }
      buff := ReadBytes(log, size);
      if buff == "" && index < |log| - 1 {
        index := index + 1;
        offset := 0;
        k1, start := 0, 0;
        assert FileHolds(log[index], files[index]);
        AtEnd(files[index], log[index], 0);
        buff := ReadBytes(log, size);
      }
    }

    /** Reads the next whole records, as many as fit the buffer, going on to the
        next file at the end of one. The position ends behind the records read.
        When the next record does not fit, the read fails and leaves the position
        inside that record; from there reads go on failing. */
    method IntegralRead(log: seq<string>, size: nat, ghost files: seq<File>, ghost k: nat)
        returns (code: Code, buff: string, first: int, last: int, ghost k': nat)
      requires Holds(log, files) && size > 0 && (Astray(log, files) || At(files, k))
      modifies this
      ensures index < |log| && FileHolds(log[index], files[index])
      ensures old(Astray(log, files)) ==>
                && code != Success && code != NoEntry
                && index == old(index) && offset == Min(old(offset) + size, |log[index]|)
      ensures !old(Astray(log, files)) ==>
                var file, k1 := files[index], NextRecord(files, old(index), k);
                && index == NextIndex(files, old(index), k)
                && (k1 == |file| ==> code == NoEntry && At(files, k1) && k' == k1 && buff == "")
                && (k1 < |file| && Size(file[k1]) > size ==>
                      && code == (if size < MIN_SIZE then NoData else Overflow)
                      && Off(file, k1) < offset == Off(file, k1) + size < Off(file, k1 + 1) && Astray(log, files))
                && (k1 < |file| && Size(file[k1]) <= size ==> code == Success && At(files, k') && Filled(file, k1, size, k'))
                && (code == Success ==> buff == Lines(file[k1..k']) && first == file[k1].version && last == file[k' - 1].version)
    {
      first, last := 0, 0;
      ghost var start;
      buff, k', start := ReadToBuffer(log, size, files, k);
      if !old(Astray(log, files)) {
        AtEnd(files[index], log[index], k');
      }
      if buff == "" {
        return NoEntry, "", first, last, k';
      }
      if !NoStart(files[index], start) {
        StaysInside(files[index], log[index], k', size);
      }
      code, buff, first, last, k' := KeepWhole(buff, size, files[index], log[index], k', start);
    }

    /** One more read behind what was read so far. */
    method ReadMore(log: seq<string>, room: nat, bytes: string, ghost files: seq<File>, ghost k: nat, ghost flat: seq<Rec>,
                    ghost rank: nat, ghost pos: nat)
        returns (code: Code, bytes': string, ghost k': nat, ghost pos': nat)
      requires Holds(log, files) && room > 0 && flat == Flat(files) && GoodTexts(flat)
      requires At(files, k) && pos == Rank(files, index, k) && rank <= pos <= |flat| && bytes == Lines(flat[rank..pos])
      modifies this
      ensures rank <= pos <= pos' <= |flat| && bytes' == Lines(flat[rank..pos'])
      ensures AllFit(flat, pos, pos', room)
      ensures code == Success || code == NoEntry ==> At(files, k') && pos' == Rank(files, index, k')
      ensures code == Success ==> pos' > pos
      ensures code == NoEntry ==> pos' == pos && (index == |log| - 1 ==> pos == |flat|) && (index == old(index) ==> index == |log| - 1)
      ensures code != Success && code != NoEntry ==> pos' < |flat| && Size(flat[pos']) > room
      ensures index >= old(index)
    {
      var more, first, last;
      ghost var i0 := index;
      code, more, first, last, k' := IntegralRead(log, room, files, k);
      ghost var k1 := NextRecord(files, i0, k);
      SamePlace(files, i0, k, index, k1);
      RankInFlat(files, index, k1);
      pos', bytes' := pos, bytes;
      if code == Success {
        pos' := Rank(files, index, k');
        bytes' := bytes + more;
        GrownBytes(files, flat, index, k1, k', rank, pos, pos');
        GrownAllFit(files, flat, index, k1, k', pos, pos', room);
      } else if code == NoEntry && index == |log| - 1 {
        LastFile(files);
      }
    }

    /** Reads on to the end of the last file, or to a record that does not fit
        the read buffer. */
    method ReadOn(log: seq<string>, room: nat, ghost files: seq<File>, ghost k: nat, ghost flat: seq<Rec>, ghost rank: nat)
        returns (code: Code, bytes: string, ghost stop: nat)
      requires Holds(log, files) && room > 0 && flat == Flat(files) && GoodTexts(flat)
      requires At(files, k) && rank == Rank(files, index, k) <= |flat|
      modifies this
      ensures rank <= stop <= |flat| && bytes == Lines(flat[rank..stop]) && AllFit(flat, rank, stop, room)
      ensures if code == NoEntry then stop == |flat| else stop < |flat| && Size(flat[stop]) > room
    {
      code, bytes, stop := Success, "", rank;
      assert flat[rank..rank] == [];
      ghost var k' := k;
      var done := false;
      while !done
        invariant rank <= stop <= |flat| && bytes == Lines(flat[rank..stop]) && AllFit(flat, rank, stop, room)
        invariant !done ==> At(files, k') && stop == Rank(files, index, k')
        invariant done ==> if code == NoEntry then stop == |flat| else stop < |flat| && Size(flat[stop]) > room
        decreases !done, |flat| - stop, |log| - index
      {
        code, bytes, k', stop := ReadMore(log, room, bytes, files, k', flat, rank, stop);
        done := !(code == Success || (code == NoEntry && index < |log| - 1));
      }
    }

    /** All there is to read behind version v: exactly the records above v, in
        order, up to one that does not fit the read buffer. */
    method ReadAll(log: seq<string>, hintIndex: nat, hintOffset: nat, v: nat, size: nat, room: nat, ghost files: Files)
        returns (code: Code, bytes: string, ghost rank: nat, ghost stop: nat)
      requires Holds(log, files) && room > 0
      modifies this
      ensures GoodTexts(Flat(files))
      ensures code == Success <==> stop == |Flat(files)| && (v == 0 || Opens(log, files, hintIndex, Before(hintOffset), v, size))
      ensures v == 0 || Opens(log, files, hintIndex, Before(hintOffset), v, size) ==>
        && Splits(Flat(files), rank, v) && rank <= stop <= |Flat(files)| && bytes == Lines(Flat(files)[rank..stop])
        && AllFit(Flat(files), rank, stop, room) && (stop < |Flat(files)| ==> Size(Flat(files)[stop]) > room)
    {
      FlatGood(log, files, |files|);
      assert files[..|files|] == files;
      bytes, rank, stop := "", 0, 0;
      ghost var k;
      code, k := Open(log, hintIndex, hintOffset, v, size, files);
      if code == Success {
        rank := Rank(files, index, k);
        code, bytes, stop := ReadOn(log, room, files, k, Flat(files), rank);
        code := if code == NoEntry then Success else Overflow;
      }
    }
  }

  /** The records from one rank up to another fit the read buffer. */
  ghost predicate AllFit(flat: seq<Rec>, a: nat, b: nat, room: nat)
    requires b <= |flat|
  {
    forall i {:trigger Size(flat[i])} :: a <= i < b ==> Size(flat[i]) <= room
  }

  lemma SamePlace(files: seq<File>, i: nat, k: nat, i': nat, k': nat)
    requires i < |files| && k <= |files[i]| && i' == NextIndex(files, i, k) && k' == NextRecord(files, i, k)
    ensures Rank(files, i', k') == Rank(files, i, k)
  {
    if i' != i {
      NextFile(files, i);
    }
  }

  lemma GrownBytes(files: seq<File>, flat: seq<Rec>, i: nat, k: nat, m: nat, rank: nat, pos: nat, pos': nat)
    requires i < |files| && k <= m <= |files[i]| && flat == Flat(files) && GoodTexts(flat) && GoodTexts(files[i])
    requires rank <= pos == Rank(files, i, k) && pos' == Rank(files, i, m)
    ensures pos <= pos' <= |flat| && Lines(flat[rank..pos']) == Lines(flat[rank..pos]) + Lines(files[i][k..m])
  {
    RanksInFlat(files, i, k, m);
    JoinRecs(flat, rank, pos, pos');
  }

  lemma JoinRecs(flat: seq<Rec>, a: nat, b: nat, c: nat)
    requires GoodTexts(flat) && a <= b <= c <= |flat|
    ensures Lines(flat[a..c]) == Lines(flat[a..b]) + Lines(flat[b..c])
  {
    LinesJoin(flat[a..b], flat[b..c]);
    assert flat[a..b] + flat[b..c] == flat[a..c];
  }

  lemma GrownFits(file: File, k: nat, m: nat, recs: seq<Rec>, room: nat, j: nat)
    requires GoodTexts(file) && k <= m <= |file| && recs == file[k..m] && Off(file, m) - Off(file, k) <= room && j < |recs|
    ensures Size(recs[j]) <= room
  {
    OffMonotone(file, k, k + j);
    OffMonotone(file, k + j + 1, m);
  }

  lemma GrownAllFit(files: seq<File>, flat: seq<Rec>, i: nat, k: nat, m: nat, pos: nat, pos': nat, room: nat)
    requires i < |files| && k <= m <= |files[i]| && flat == Flat(files) && GoodTexts(files[i])
    requires pos == Rank(files, i, k) && pos' == Rank(files, i, m) && Off(files[i], m) - Off(files[i], k) <= room
    ensures pos' <= |flat| && AllFit(flat, pos, pos', room)
  {
    RanksInFlat(files, i, k, m);
    forall j | pos <= j < pos'
      ensures Size(flat[j]) <= room
    {
      GrownFits(files[i], k, m, flat[pos..pos'], room, j - pos);
    }
  }

  lemma {:induction false} FlatGood(log: seq<string>, files: seq<File>, n: nat)
    requires Holds(log, files) && n <= |files|
    ensures GoodTexts(Flat(files[..n]))
  {
    if n > 0 {
      FlatGood(log, files, n - 1);
      assert files[..n][..n - 1] == files[..n - 1] && FileHolds(log[n - 1], files[n - 1]);
    }
  }

  /** Where a read at record k of a file goes on: at the end of a file with the
      first record of the next. */
  ghost function NextIndex(files: seq<File>, i: nat, k: nat): nat
    requires i < |files|
  {
    if k == |files[i]| && i + 1 < |files| then i + 1 else i
  }

  ghost function NextRecord(files: seq<File>, i: nat, k: nat): nat
    requires i < |files|
  {
    if k == |files[i]| && i + 1 < |files| then 0 else k
  }

  lemma AtEnd(file: File, bytes: string, k: nat)
    requires FileHolds(bytes, file) && k <= |file|
    ensures Off(file, k) >= |bytes| <==> k == |file|
    ensures Off(file, k) <= |bytes|
  {
    OffEnd(file);
    if k < |file| {
      OffGrows(file, k, |file|);
    }
  }

  /** Records k up to k' are what fits into size bytes. */
  ghost predicate Filled(file: File, k: nat, size: nat, k': nat)
    requires GoodTexts(file) && k <= |file|
  {
    k < k' <= |file| && Off(file, k') - Off(file, k) <= size && (k' < |file| ==> Off(file, k' + 1) - Off(file, k) > size)
  }

  lemma RecordEnds(file: File, bytes: string, k: nat)
    requires FileHolds(bytes, file) && k < |file|
    ensures Off(file, k + 1) <= |bytes| == Off(file, |file|) && Off(file, k + 1) == Off(file, k) + Size(file[k])
  {
    OffEnd(file);
    OffMonotone(file, k + 1, |file|);
  }

  lemma KeptBytes(file: File, bytes: string, k: nat, k': nat, b: nat, buff: string)
    requires FileHolds(bytes, file) && k <= k' <= |file| && Off(file, k') <= b <= |bytes|
    requires Off(file, k) <= b && buff == bytes[Off(file, k)..b]
    ensures Off(file, k) <= Off(file, k') && buff[..Off(file, k') - Off(file, k)] == Lines(file[k..k'])
  {
    var start, end := Off(file, k), Off(file, k');
    LinesBetween(file, bytes, k, k', start, end);
    assert buff[..end - start] == bytes[start..end];
  }

  /** A position behind the start of a record and in front of its end is inside. */
  lemma StaysInside(file: File, bytes: string, k: nat, size: nat)
    requires FileHolds(bytes, file) && k < |file|
    ensures Off(file, k + 1) == Off(file, k) + Size(file[k]) <= |bytes|
    ensures 0 < size < Size(file[k]) ==> NoStart(file, Off(file, k) + size)
  {
    RecordEnds(file, bytes, k);
    forall i | 0 <= i <= |file|
      ensures Off(file, i) <= Off(file, k) || Off(file, i) >= Off(file, k + 1)
    {
      if i <= k {
        OffMonotone(file, i, k);
      } else {
        OffMonotone(file, k + 1, i);
      }
    }
  }

  lemma LastFilled(file: File, bytes: string, k: nat, size: nat, b: nat) returns (i: nat)
    requires FileHolds(bytes, file) && k < |file| && Size(file[k]) <= size && b == Min(Off(file, k) + size, |bytes|)
    ensures k <= i < |file| && i + 1 == EndBefore(file, b) && Inside(file, Off(file, k), b, i) && Filled(file, k, size, i + 1)
  {
    RecordEnds(file, bytes, k);
    EndsBefore(file, b, k);
    i := EndBefore(file, b) - 1;
    OffMonotone(file, k, i);
    if i + 1 < |file| {
      RecordEnds(file, bytes, i + 1);
    }
  }

  // ------------------------------------------------------------------------- the hint

  /** Where the look around a hint starts. */
  function Before(offset: nat): nat {
    if offset > MAX_SIZE / 4 then offset - MAX_SIZE / 4
    else if offset > MAX_SIZE / 8 then offset - MAX_SIZE / 8
    else offset
  }

  /** A hint to the file behind the last one stands for the start of the last. */
  function HintFile(files: seq<File>, index: nat): nat {
    if index < |files| || index == 0 then index else index - 1
  }

  function HintOffset(files: seq<File>, index: nat, offset: nat): nat {
    if index < |files| then offset else 0
  }

  /** Version v is in a record that lies wholly in the bytes around the hint. */
  ghost predicate InWindow(bytes: string, file: File, offset: nat, v: int)
    requires GoodTexts(file)
  {
    var a := Min(offset, |bytes|);
    exists i: nat :: Inside(file, a, Min(a + MAX_SIZE + 1, |bytes|), i) && file[i].version == v
  }

  /** Opening finds v: around the hint, or by the search that starts there. */
  ghost predicate Opens(log: seq<string>, files: seq<File>, index: nat, offset: nat, v: int, size: nat)
    requires Holds(log, files)
  {
    var i := HintFile(files, index);
    && i < |files|
    && (Reaches(files, i, v, size) || (FileHolds(log[i], files[i]) && InWindow(log[i], files[i], HintOffset(files, index, offset), v)))
  }

  /** Version v is in no record of the slice that starts before pos. */
  ghost predicate NotBefore(file: File, a: nat, b: nat, pos: nat, v: int)
    requires GoodTexts(file)
  {
    forall i: nat {:trigger Inside(file, a, b, i)} :: Inside(file, a, b, i) && file[i].version == v ==> Inside(file, pos, b, i)
  }

  lemma PassOne(file: File, a: nat, b: nat, pos: nat, v: int)
    requires GoodTexts(file) && NotBefore(file, a, b, pos, v)
    requires Inside(file, pos, b, StartAfter(file, pos)) && file[StartAfter(file, pos)].version != v
    ensures NotBefore(file, a, b, Off(file, StartAfter(file, pos) + 1), v)
  {
    var k := StartAfter(file, pos);
    forall i: nat | Inside(file, a, b, i) && file[i].version == v
      ensures Inside(file, Off(file, k + 1), b, i)
    {
      InsideRange(file, pos, b, i);
      OffMonotone(file, k + 1, i);
    }
  }

  lemma FoundInWindow(file: File, a: nat, b: nat, pos: nat, v: int)
    requires GoodTexts(file) && a <= pos && Inside(file, pos, b, StartAfter(file, pos)) && file[StartAfter(file, pos)].version == v
    ensures exists i: nat :: Inside(file, a, b, i) && file[i].version == v
  {
    assert Inside(file, a, b, StartAfter(file, pos));
  }

  lemma NothingInWindow(file: File, a: nat, b: nat, pos: nat, v: int)
    requires GoodTexts(file) && NotBefore(file, a, b, pos, v) && (b - pos < MIN_SIZE || forall i: nat :: !Inside(file, pos, b, i))
    ensures !exists i: nat :: Inside(file, a, b, i) && file[i].version == v
  {
    if b - pos < MIN_SIZE {
      ShortSlice(file, pos, b);
    }
  }

  lemma AllPositive(log: seq<string>, files: seq<File>)
    requires Holds(log, files)
    ensures Splits(Flat(files), Rank(files, 0, 0), 0) && Off(files[0], 0) == 0
  {
    PositiveVersions(log, files, |files|);
    assert files[..|files|] == files;
  }

  lemma {:induction false} PositiveVersions(log: seq<string>, files: seq<File>, n: nat)
    requires Holds(log, files) && n <= |files|
    ensures forall i :: 0 <= i < |Flat(files[..n])| ==> Flat(files[..n])[i].version > 0
  {
    if n > 0 {
      PositiveVersions(log, files, n - 1);
      assert files[..n][..n - 1] == files[..n - 1] && FileHolds(log[n - 1], files[n - 1]);
    }
  }

  // ----------------------------------------------------------------- the way of a search

  /** The file ends below v. */
  ghost predicate Under(file: File, v: int) {
    file != [] && file[|file| - 1].version < v
  }

  /** The file starts above v. */
  ghost predicate Over(file: File, v: int) {
    file != [] && file[0].version > v
  }

  /** A search in this direction from one file to another passed readable files
      that lie on one side of v. */
  ghost predicate OnTheWay(files: seq<File>, from: nat, index: nat, direction: int, v: int) {
    && from < |files| && index < |files| && (direction == 0 ==> index == from)
    && (direction > 0 ==> from < index && forall j {:trigger Readable(files[j])} {:trigger Under(files[j], v)} :: from <= j < index ==> Readable(files[j]) && Under(files[j], v))
    && (direction < 0 ==> index < from && forall j {:trigger Readable(files[j])} {:trigger Over(files[j], v)} :: index < j <= from ==> Readable(files[j]) && Over(files[j], v))
  }

  lemma OneCovers(files: Files, i: nat, j: nat, v: int)
    requires i < |files| && j < |files| && Covers(files[i], v) && Covers(files[j], v)
    ensures i == j
  {
    if j < i {
      FileOrder(files, j, i, |files[j]| - 1, 0);
    } else if i < j {
      FileOrder(files, i, j, |files[i]| - 1, 0);
    }
  }

  lemma OnlyAt(files: Files, from: nat, v: int, size: nat, i: nat)
    requires i < |files| && Covers(files[i], v)
    ensures Reaches(files, from, v, size) ==> ReachesAt(files, from, v, size, i)
  {
    if Reaches(files, from, v, size) {
      var j :| 0 <= j < |files| && ReachesAt(files, from, v, size, j);
      OneCovers(files, i, j, v);
    }
  }

  lemma CoveredHere(files: Files, from: nat, index: nat, direction: int, v: int, size: nat)
    requires -1 <= direction <= 1 && OnTheWay(files, from, index, direction, v)
    requires Readable(files[index]) && Covers(files[index], v)
    ensures Reaches(files, from, v, size) <==> RoomTo(files[index], v, size)
  {
    OnlyAt(files, from, v, size, index);
    if RoomTo(files[index], v, size) {
      assert ReachesAt(files, from, v, size, index);
    }
  }

  lemma NotThere(files: Files, from: nat, index: nat, direction: int, v: int, size: nat, i: nat)
    requires -1 <= direction <= 1 && OnTheWay(files, from, index, direction, v) && !Readable(files[index])
    requires i < |files|
    ensures !ReachesAt(files, from, v, size, i)
  {
    if direction > 0 && i < index {
      assert Under(files[index - 1], v);
      BelowNotCovered(files, i, index - 1, v);
    } else if direction < 0 && i > index {
      assert Over(files[index + 1], v);
      AboveNotCovered(files, i, index + 1, v);
    }
  }

  /** A file on the way that cannot be read ends the search. */
  lemma StuckAt(files: Files, from: nat, index: nat, direction: int, v: int, size: nat)
    requires -1 <= direction <= 1 && OnTheWay(files, from, index, direction, v) && !Readable(files[index])
    ensures !Reaches(files, from, v, size)
  {
    if Reaches(files, from, v, size) {
      var i :| 0 <= i < |files| && ReachesAt(files, from, v, size, i);
      NotThere(files, from, index, direction, v, size, i);
    }
  }

  /** A version between two neighbouring files, or before or behind all of them,
      is in no file. */
  lemma NoneCovers(files: Files, j: nat, v: int, i: nat)
    requires j <= |files| && (j > 0 ==> Under(files[j - 1], v)) && (j < |files| ==> Over(files[j], v))
    requires i < |files|
    ensures !Covers(files[i], v)
  {
    if i < j {
      BelowNotCovered(files, i, j - 1, v);
    } else {
      AboveNotCovered(files, i, j, v);
    }
  }

  lemma NotReached(files: Files, from: nat, j: nat, v: int, size: nat)
    requires j <= |files| && (j > 0 ==> Under(files[j - 1], v)) && (j < |files| ==> Over(files[j], v))
    ensures !Reaches(files, from, v, size)
  {
    if Reaches(files, from, v, size) {
      var i :| 0 <= i < |files| && ReachesAt(files, from, v, size, i);
      NoneCovers(files, j, v, i);
    }
  }

  lemma JoinBytes(bytes: string, a: nat, b: nat, c: nat)
    requires a <= b <= c <= |bytes|
    ensures bytes[a..b] + bytes[b..c] == bytes[a..c]
  {
  }

  /** A record that is not whole in the buffer leaves more of the file to read. */
  lemma MoreToRead(file: File, bytes: string, k: nat, offset: nat)
    requires FileHolds(bytes, file) && k < |file| && offset < Off(file, k + 1)
    ensures offset < |bytes|
  {
    OffEnd(file);
    OffMonotone(file, k + 1, |file|);
  }

  lemma PassedOn(file: File, v: int, size: nat, k: nat)
    requires Covers(file, v) && k < |file| && Passed(file, v, size, k) && file[k].version < v && Size(file[k]) <= size
    ensures k + 1 < |file| && Passed(file, v, size, k + 1)
  {
  }

  lemma FitsHere(file: File, v: int, size: nat, k: nat)
    requires k < |file| && Passed(file, v, size, k) && file[k].version >= v && Size(file[k]) <= size
    ensures RoomTo(file, v, size)
  {
    assert Target(file, v, k);
  }

  lemma SplitsBefore(files: Files, i: nat, k: nat, v: int)
    requires i < |files| && Covers(files[i], v) && k < |files[i]| && files[i][k].version > v
    requires forall j :: 0 <= j < k ==> files[i][j].version < v
    ensures Splits(Flat(files), Rank(files, i, k), v)
  {
    var before := k - 1;
    SplitsBetween(files, i, before, v);
  }
}
