/**
 From the master's requests through the bytes of its log to a replica's tree.
 */
module ReplicaStream {
  import opened Wrappers
  import opened Record
  import opened BinlogText
  import opened BinlogPack
  import opened DataThread
  import opened Replication
  import S = BinlogSlices
  import BinlogReader
  import D = Dentry

  /** A record that the log gives back: it packs, keeps its lengths, is long
      enough and has the fields that reading requires. */
  ghost predicate Writable(rec: Record) {
    && Pack(rec).0 == D.Success && TextsFit(rec) && (rec.options.mode ==> ModeFits(rec.stat.mode))
    && |Body(rec)| >= MIN_SIZE - SIZE_LENGTH
    && Required(Parsed(Logged(rec), rec.options.path, rec.options.path, true))
  }

  ghost predicate AllWritable(log: seq<Record>) {
    forall i {:trigger Writable(log[i])} :: 0 <= i < |log| ==> Writable(log[i])
  }

  function Written(log: seq<Record>): string {
    if log == [] then "" else Pack(log[0]).1 + Written(log[1..])
  }

  /** Reads record after record; None when one of them is refused. */
  function UnpackAll(s: string): Option<seq<Record>>
    decreases |s|
  {
    if s == "" then Some([])
    else
      var (code, rec, end) := Unpack(s);
      if code != D.Success || end == 0 || end > |s| then None
      else
        match UnpackAll(s[end..])
        case None => None
        case Some(recs) => Some([rec] + recs)
  }

  lemma ReadBackMore(log: seq<Record>)
    requires log != []
    ensures ReadBack(log) == [Logged(log[0])] + ReadBack(log[1..])
  {
  }

  lemma UnpackStep(rec: Record, rest: string, recs: seq<Record>)
    requires Writable(rec) && UnpackAll(rest) == Some(recs)
    ensures UnpackAll(Pack(rec).1 + rest) == Some([Logged(rec)] + recs)
  {
    var line := Pack(rec).1;
    PackUnpack(rec, rest);
    PackShape(rec);
    Dropped(line, rest);
    assert Unpack(line + rest) == (D.Success, Logged(rec), |line|);
    assert (line + rest)[|line|..] == rest;
    assert UnpackAll((line + rest)[|line|..]) == Some(recs);
  }

  /** A log of writable records is read back record by record. */
  lemma {:induction false} LogReadsBack(log: seq<Record>)
    requires AllWritable(log)
    ensures UnpackAll(Written(log)) == Some(ReadBack(log))
  {
    if log == [] {
      assert ReadBack(log) == [];
    } else {
      LogReadsBack(log[1..]);
      UnpackStep(log[0], Written(log[1..]), ReadBack(log[1..]));
      ReadBackMore(log);
    }
  }

  /** A replica that reads the bytes the master wrote and applies what it read
      holds the master's tree. */
  lemma StreamAgrees(reqs: seq<Request>)
    requires AllWritable(RunMaster(reqs).log)
    ensures var recs := UnpackAll(Written(RunMaster(reqs).log));
      recs.Some? && Replay(recs.value) == Some(RunMaster(reqs).fs)
  {
    LogReadsBack(RunMaster(reqs).log);
    ReplicaAgrees(reqs);
  }

  // ----------------------------------------------------------- catching up from a version

  /** The records of a log as lines of its files. */
  ghost function RecOf(rec: Record): S.Rec {
    S.Rec(rec.version, Encode(FieldsOf(rec)))
  }

  ghost function RecsOf(log: seq<Record>): seq<S.Rec> {
    seq(|log|, i requires 0 <= i < |log| => RecOf(log[i]))
  }

  lemma WritableLine(rec: Record)
    requires Writable(rec)
    ensures S.GoodText(RecOf(rec).text) && Pack(rec).1 == S.Line(RecOf(rec).text) && S.VersionOk(RecOf(rec))
  {
    S.PackedIsLine(rec, RecOf(rec).text);
    S.PackedVersion(rec);
  }

  lemma OneLine(r: S.Rec)
    requires S.GoodText(r.text)
    ensures S.GoodTexts([r]) && S.Lines([r]) == S.Line(r.text)
  {
    assert [r][..0] == [];
  }

  lemma WriteOne(rec: Record, recs: seq<S.Rec>, rest: string)
    requires Writable(rec) && S.GoodTexts(recs) && S.Versioned(recs) && rest == S.Lines(recs)
    ensures var all := [RecOf(rec)] + recs; S.GoodTexts(all) && S.Versioned(all) && S.Lines(all) == Pack(rec).1 + rest
  {
    WritableLine(rec);
    OneLine(RecOf(rec));
    S.LinesJoin([RecOf(rec)], recs);
  }

  /** What is written for a log are the lines of its records. */
  lemma {:induction false} WrittenIsLines(log: seq<Record>, recs: seq<S.Rec>)
    requires AllWritable(log) && recs == RecsOf(log)
    ensures S.GoodTexts(recs) && S.Versioned(recs) && Written(log) == S.Lines(recs)
    decreases |log|
  {
    if log != [] {
      var rest := RecsOf(log[1..]);
      WrittenIsLines(log[1..], rest);
      assert Writable(log[0]);
      WriteOne(log[0], rest, Written(log[1..]));
      assert recs == [RecOf(log[0])] + rest;
    }
  }

  /** The lines from a rank on are read back as the records from there on. */
  lemma TailReadsBack(log: seq<Record>, recs: seq<S.Rec>, rank: nat, bytes: string)
    requires AllWritable(log) && recs == RecsOf(log) && rank <= |log| && S.GoodTexts(recs[rank..]) && bytes == S.Lines(recs[rank..])
    ensures UnpackAll(bytes) == Some(ReadBack(log[rank..]))
  {
    var rest := log[rank..];
    TailWritable(log, rank);
    TailRecs(log, recs, rank);
    WrittenIsLines(rest, recs[rank..]);
    LogReadsBack(rest);
  }

  lemma TailWritable(log: seq<Record>, rank: nat)
    requires AllWritable(log) && rank <= |log|
    ensures AllWritable(log[rank..])
  {
    forall i | 0 <= i < |log[rank..]|
      ensures Writable(log[rank..][i])
    {
      assert Writable(log[rank + i]);
    }
  }

  lemma TailRecs(log: seq<Record>, recs: seq<S.Rec>, rank: nat)
    requires recs == RecsOf(log) && rank <= |log|
    ensures recs[rank..] == RecsOf(log[rank..])
  {
  }

  lemma ReadBackJoin(log: seq<Record>, rank: nat)
    requires rank <= |log|
    ensures ReadBack(log[..rank]) + ReadBack(log[rank..]) == ReadBack(log)
  {
  }

  /** A replica that holds the first v records of the log, opens the reader at v
      and applies what it reads holds the master's tree. */
  lemma CatchUp(reqs: seq<Request>, log: seq<Record>, recs: seq<S.Rec>, rank: nat, v: nat, bytes: string)
    requires log == RunMaster(reqs).log && AllWritable(log) && recs == RecsOf(log)
    requires BinlogReader.Splits(recs, rank, v) && S.GoodTexts(recs[rank..]) && bytes == S.Lines(recs[rank..])
    ensures rank == (if v <= |log| then v else |log|) && UnpackAll(bytes).Some?
    ensures Replay(ReadBack(log[..rank]) + UnpackAll(bytes).value) == Some(RunMaster(reqs).fs)
  {
    VersionsConsecutive(reqs);
    RankOfVersion(log, rank, v);
    TailReadsBack(log, recs, rank, bytes);
    ReadBackJoin(log, rank);
    ReplicaAgrees(reqs);
  }

  lemma RankOfVersion(log: seq<Record>, rank: nat, v: nat)
    requires BinlogReader.Splits(RecsOf(log), rank, v) && forall i :: 0 <= i < |log| ==> log[i].version == i + 1
    ensures rank == if v <= |log| then v else |log|
  {
    var recs := RecsOf(log);
    if 0 < rank {
      assert recs[rank - 1].version == rank;
    }
    if rank < |log| {
      assert recs[rank].version == rank + 1;
    }
  }

  // ------------------------------------------------------------------ a lost length

  lemma {:induction false} EscapeDoubles(s: string)
    requires forall i :: 0 <= i < |s| ==> Code(s[i]).Some?
    ensures |Escape(s)| == 2 * |s|
  {
    if s != "" {
      EscapeDoubles(s[1..]);
    }
  }

  lemma EighteenWritten(name: string)
    requires name == "<<<<<<<<<"
    ensures WrittenLength(name) == 2 && |Escape(name)| == 18
  {
    EscapeDoubles(name);
    assert Digits(18) == Digits(1) + [DigitOf(8)];
  }

  /** A name of nine tag characters is escaped to eighteen characters; its
      length is written as 2, and the name is not read back. */
  lemma NineTagsLost()
    ensures var name := "<<<<<<<<<";
      WrittenLength(name) == 2 && NextField(EncodeField(Text(Subname, name)) + END_TAG) != Got(Text(Subname, name), END_TAG)
  {
    var name := "<<<<<<<<<";
    EighteenWritten(name);
    TextReads(Subname, name, END_TAG);
  }
}
