/**
 What a hint is worth when the reader is opened: the place right behind the
 wanted version is found again without a search unless the record is long, and
 a hint to a file that is not there yet stands for the start of the last file.
 */
module BinlogHints {
  import opened BinlogPack
  import opened BinlogSlices
  import opened BinlogReader

  /** How many bytes before a hint the look for its record starts. */
  function StepBack(offset: nat): nat {
    if offset > 2499 then 2499 else if offset > 1249 then 1249 else 0
  }

  lemma VersionsGrow(files: Files, i: nat, j: nat, k: nat)
    requires i < |files| && j < k < |files[i]|
    ensures files[i][j].version < files[i][k].version
  {
    RankInFlat(files, i, j);
    RankInFlat(files, i, k);
    assert Older(Flat(files)[Rank(files, i, j)], Flat(files)[Rank(files, i, k)]);
  }

  /** A hint right behind the record of the wanted version leads back to it if and
      only if the record is not longer than the step back. */
  lemma RightHint(log: seq<string>, files: Files, i: nat, k: nat, offset: nat)
    requires Holds(log, files) && i < |files| && k < |files[i]| && FileHolds(log[i], files[i]) && offset == Off(files[i], k + 1)
    ensures InWindow(log[i], files[i], Before(offset), files[i][k].version) <==> Size(files[i][k]) <= StepBack(offset)
  {
    var file, bytes, v := files[i], log[i], files[i][k].version;
    var a, b := Before(offset), Min(Before(offset) + MAX_SIZE + 1, |bytes|);
    LinesTake(file, k + 1);
    assert a == offset - StepBack(offset) && a <= |bytes| && offset <= b;
    if j: nat :| Inside(file, a, b, j) && file[j].version == v {
      if j < k {
        VersionsGrow(files, i, j, k);
      } else if k < j {
        VersionsGrow(files, i, k, j);
      }
    }
    if Size(file[k]) <= StepBack(offset) {
      assert Inside(file, a, b, k);
    }
  }

  /** A hint to the file behind the last one stands for the start of the last, and
      one beyond that leads nowhere. */
  lemma HintBehind(log: seq<string>, files: Files, index: nat, offset: nat, v: int, size: nat)
    requires Holds(log, files) && index >= |files|
    ensures index == |files| ==> (Opens(log, files, index, offset, v, size) <==> Opens(log, files, index - 1, 0, v, size))
    ensures index > |files| ==> !Opens(log, files, index, offset, v, size)
  {
  }
}
