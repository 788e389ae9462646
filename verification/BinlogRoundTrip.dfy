/**
 What a packed record gives back when it is unpacked: exactly which of its
 fields, and when.
 */
module BinlogRoundTrip {
  import opened Record
  import opened BinlogText
  import opened BinlogPack
  import opened DataThread
  import D = Dentry

  /** A record has the fields of another that its options and its operation
      select. */
  ghost predicate Restores(rec: Record, got: Record) {
    var o, s, t := rec.options, rec.stat, got.stat;
    && got.version == rec.version && got.inode == rec.inode && got.op == rec.op
    && got.timestamp == rec.timestamp && got.hashCode == rec.hashCode && got.options == o
    && (o.path ==> got.ns == rec.ns && got.me == rec.me)
    && (o.link ==> got.link == rec.link)
    && (o.mode ==> t.mode == s.mode)
    && (o.btime ==> t.btime == s.btime)
    && (o.atime ==> t.atime == s.atime)
    && (o.ctime ==> t.ctime == s.ctime)
    && (o.mtime ==> t.mtime == s.mtime)
    && (o.uid ==> t.uid == s.uid)
    && (o.gid ==> t.gid == s.gid)
    && (o.size ==> t.size == s.size)
    && (o.spaceEnd ==> t.spaceEnd == s.spaceEnd)
    && (o.incAlloc ==> t.alloc == s.alloc)
    && (o.srcInode ==> got.srcInode == rec.srcInode)
    && (rec.op == RenameDentry ==> got.src == rec.src && got.flags == rec.flags)
    && (rec.op == SetXattr ==> got.xattrKey == rec.xattrKey && got.xattrValue == rec.xattrValue)
    && (rec.op == RemoveXattr ==> got.xattrKey == rec.xattrKey)
  }

  /** The birth time is written from the access time. */
  ghost predicate BirthTimeSafe(rec: Record) {
    rec.options.btime ==> rec.stat.btime == rec.stat.atime
  }

  /** A record is packed if and only if its path, when selected, has a directory
      or no name, and its size can be written with four digits. */
  lemma PackExact(rec: Record)
    ensures Pack(rec).0 == D.Success <==>
              (rec.options.path ==> rec.me.parentInode != 0 || rec.me.name == "") && |START_TAG| + |Encode(FieldsOf(rec))| + |END_TAG| < 10000
  {
  }

  /** A packed record that is long enough is accepted when it is unpacked if and
      only if it has a version, an inode, an operation and a time, and, when it is a
      rename, both of its directories and names. */
  lemma UnpackAccepts(rec: Record, rest: string)
    requires Pack(rec).0 == D.Success && TextsFit(rec) && (rec.options.mode ==> ModeFits(rec.stat.mode))
    requires |Body(rec)| >= MIN_SIZE - SIZE_LENGTH
    ensures Unpack(Pack(rec).1 + rest).0 == D.Success <==>
              && rec.version > 0 && rec.inode > 0 && rec.op != NoOp && rec.timestamp > 0
              && (rec.op == RenameDentry ==>
                    rec.options.path && rec.me.parentInode != 0 && rec.me.name != "" && rec.src.parentInode != 0 && rec.src.name != "")
  {
    PackUnpack(rec, rest);
    PackExact(rec);
  }

  /** A packed record that is long enough is unpacked with all its selected
      fields if and only if its birth time, when selected, is its access time. */
  lemma RestoredExactly(rec: Record, rest: string)
    requires Pack(rec).0 == D.Success && TextsFit(rec) && (rec.options.mode ==> ModeFits(rec.stat.mode))
    requires |Body(rec)| >= MIN_SIZE - SIZE_LENGTH
    ensures Restores(rec, Unpack(Pack(rec).1 + rest).1) <==> BirthTimeSafe(rec)
  {
    PackUnpack(rec, rest);
  }

  // -------------------------------------------------------------------------- lengths

  ghost predicate Short(f: Field, bound: nat) {
    |EncodeField(f)| <= bound
  }

  lemma EncodeFirst(fields: seq<Field>)
    requires fields != []
    ensures |Encode(fields)| == |EncodeField(fields[0])| + |Encode(fields[1..])|
  {
  }

  lemma {:induction false} EncodeAtLeast(fields: seq<Field>, i: nat)
    requires i < |fields|
    ensures |Encode(fields)| >= |EncodeField(fields[i])|
  {
    EncodeFirst(fields);
    if i > 0 {
      EncodeAtLeast(fields[1..], i - 1);
    }
  }

  /** The length of so many fields, each up to the bound. */
  function Total(count: nat, bound: nat): nat {
    if count == 0 then 0 else bound + Total(count - 1, bound)
  }

  ghost predicate AllShort(fields: seq<Field>, bound: nat) {
    forall i {:trigger Short(fields[i], bound)} :: 0 <= i < |fields| ==> Short(fields[i], bound)
  }

  lemma ShortRest(fields: seq<Field>, bound: nat)
    requires fields != [] && AllShort(fields, bound)
    ensures Short(fields[0], bound) && AllShort(fields[1..], bound)
  {
    forall i | 0 <= i < |fields[1..]|
      ensures Short(fields[1..][i], bound)
    {
      assert Short(fields[i + 1], bound);
    }
  }

  lemma {:induction false} EncodeAtMost(fields: seq<Field>, bound: nat)
    requires AllShort(fields, bound)
    ensures |Encode(fields)| <= Total(|fields|, bound)
  {
    if fields != [] {
      ShortRest(fields, bound);
      EncodeAtMost(fields[1..], bound);
      EncodeFirst(fields);
    }
  }

  lemma NumberLength(key: Key, n: nat)
    requires !key.Other? && n < 10
    ensures |EncodeField(Number(key, n))| == 5
  {
    NameRoundTrip(key);
  }

  lemma PlainLength(key: Key, value: string)
    requires !key.Other? && |value| < 100 && forall i :: 0 <= i < |value| ==> Code(value[i]).None?
    ensures Fits(value) && |value| + 5 <= |EncodeField(Text(key, value))| <= |value| + 7
  {
    NameRoundTrip(key);
    PlainFits(value);
    FewDigitsBelow100(|value|);
  }

  lemma FewDigitsBelow100(n: nat)
    requires n < 100
    ensures 1 <= |Digits(n)| <= 2
  {
    if n >= 10 {
      assert |Digits(n / 10)| == 1;
    }
  }

  function One(choice: (bool, Field)): seq<Field> {
    if choice.0 then [choice.1] else []
  }

  lemma SelectFirst(a: (bool, Field), rest: seq<(bool, Field)>)
    ensures Select([a] + rest) == One(a) + Select(rest)
  {
    assert ([a] + rest)[1..] == rest;
  }

  lemma SelectFive(a: (bool, Field), b: (bool, Field), c: (bool, Field), d: (bool, Field), e: (bool, Field))
    ensures Select([a, b, c, d, e]) == One(a) + (One(b) + (One(c) + (One(d) + One(e))))
  {
    SelectThree(c, d, e);
    SelectFirst(b, [c, d, e]);
    SelectFirst(a, [b, c, d, e]);
    assert [a] + [b, c, d, e] == [a, b, c, d, e] && [b] + [c, d, e] == [b, c, d, e];
  }

  lemma SelectThree(c: (bool, Field), d: (bool, Field), e: (bool, Field))
    ensures Select([c, d, e]) == One(c) + (One(d) + One(e))
  {
    SelectFirst(e, []);
    SelectFirst(d, [e]);
    SelectFirst(c, [d, e]);
    assert [c] + [d, e] == [c, d, e] && [d] + [e] == [d, e] && [e] + [] == [e];
  }

  lemma TimesOf(rec: Record)
    requires !rec.options.mode && !rec.options.atime && !rec.options.ctime && !rec.options.mtime
    ensures TimeFields(rec) == One((rec.options.btime, Number(Btime, rec.stat.atime)))
  {
    var o, s := rec.options, rec.stat;
    SelectFive((o.mode, Number(FileMode, ModeBits(s.mode))), (o.btime, Number(Btime, s.atime)), (o.atime, Number(Atime, s.atime)),
               (o.ctime, Number(Ctime, s.ctime)), (o.mtime, Number(Mtime, s.mtime)));
  }

  lemma OwnersOf(rec: Record)
    requires !rec.options.gid && !rec.options.size && !rec.options.spaceEnd && !rec.options.incAlloc
    ensures OwnerFields(rec) == One((rec.options.uid, Number(Uid, rec.stat.uid)))
  {
    var o, s := rec.options, rec.stat;
    SelectFive((o.uid, Number(Uid, s.uid)), (o.gid, Number(Gid, s.gid)), (o.size, Number(Size, s.size)),
               (o.spaceEnd, Number(SpaceEnd, s.spaceEnd)), (o.incAlloc, Number(IncAlloc, s.alloc)));
  }

  // ------------------------------------------------------------------------- examples

  /** A namespace name of fifty letters. */
  const LONG_NAME: string := seq(50, _ => 'n')

  /** A record that carries a birth time of 1 and an access time of 2. */
  const BORN_EARLIER := ZERO_RECORD.(
    version := 1, inode := 1, ns := LONG_NAME, hashCode := 1, op := CreateDentry, timestamp := 1,
    options := NO_OPTIONS.(path := true, btime := true), me := PName(1, "f"), stat := ZERO_STAT.(btime := 1, atime := 2))

  lemma BornFields()
    ensures FieldsOf(BORN_EARLIER) ==
      [Number(Version, 1), Number(Inode, 1), Text(Operation, "cr"), Number(Timestamp, 1), Text(Namespace, LONG_NAME),
       Number(Parent, 1), Text(Subname, "f"), Number(HashCode, 1), Number(Btime, 2)]
  {
    var rec, o := BORN_EARLIER, BORN_EARLIER.options;
    assert Select([(o.link, Text(Link, rec.link))]) == [];
    TimesOf(rec);
    assert TimeFields(rec) == [Number(Btime, 2)];
    OwnersOf(rec);
    assert OwnerFields(rec) == [];
    assert Select([(o.srcInode, Number(SrcInode, rec.srcInode))]) == [];
  }

  lemma BornSize(fields: seq<Field>)
    requires fields ==
      [Number(Version, 1), Number(Inode, 1), Text(Operation, "cr"), Number(Timestamp, 1), Text(Namespace, LONG_NAME),
       Number(Parent, 1), Text(Subname, "f"), Number(HashCode, 1), Number(Btime, 2)]
    ensures 55 <= |Encode(fields)| <= 513
  {
    BornShort();
    EncodeAtLeast(fields, 4);
    BornAllShort(fields);
    EncodeAtMost(fields, 57);
    NineTotal();
  }

  lemma BornAllShort(fields: seq<Field>)
    requires fields ==
      [Number(Version, 1), Number(Inode, 1), Text(Operation, "cr"), Number(Timestamp, 1), Text(Namespace, LONG_NAME),
       Number(Parent, 1), Text(Subname, "f"), Number(HashCode, 1), Number(Btime, 2)]
    ensures AllShort(fields, 57)
  {
    BornShort();
  }

  lemma NineTotal()
    ensures Total(9, 57) == 513
  {
  }

  lemma BornShort()
    ensures Short(Number(Version, 1), 57) && Short(Number(Inode, 1), 57) && Short(Text(Operation, "cr"), 57)
    ensures Short(Number(Timestamp, 1), 57) && Short(Text(Namespace, LONG_NAME), 57) && Short(Number(Parent, 1), 57)
    ensures Short(Text(Subname, "f"), 57) && Short(Number(HashCode, 1), 57) && Short(Number(Btime, 2), 57)
    ensures Fits(LONG_NAME) && Fits("f") && |EncodeField(Text(Namespace, LONG_NAME))| >= 55
  {
    PlainLength(Operation, "cr");
    PlainLength(Namespace, LONG_NAME);
    PlainLength(Subname, "f");
    NumberLength(Version, 1);
    NumberLength(Inode, 1);
    NumberLength(Timestamp, 1);
    NumberLength(Parent, 1);
    NumberLength(HashCode, 1);
    NumberLength(Btime, 2);
  }

  lemma BornPacks()
    ensures Pack(BORN_EARLIER).0 == D.Success && |Body(BORN_EARLIER)| >= MIN_SIZE - SIZE_LENGTH && TextsFit(BORN_EARLIER)
  {
    BornFields();
    BornSize(FieldsOf(BORN_EARLIER));
    BornShort();
  }

  /** The birth time of this record is not restored: it comes back as 2. */
  lemma BirthTimeLost()
    ensures Pack(BORN_EARLIER).0 == D.Success
    ensures Unpack(Pack(BORN_EARLIER).1).1.stat.btime == 2 && !Restores(BORN_EARLIER, Unpack(Pack(BORN_EARLIER).1).1)
  {
    BornPacks();
    PackUnpack(BORN_EARLIER, "");
    assert Pack(BORN_EARLIER).1 + "" == Pack(BORN_EARLIER).1;
  }

  /** A change of the owner's id in a young log. */
  const SHORT_RECORD := ZERO_RECORD.(version := 1, inode := 1, hashCode := 1, op := UpdateDentry, timestamp := 1,
                                     options := NO_OPTIONS.(uid := true))

  lemma ShortFields()
    ensures FieldsOf(SHORT_RECORD) ==
      [Number(Version, 1), Number(Inode, 1), Text(Operation, "up"), Number(Timestamp, 1), Number(HashCode, 1), Number(Uid, 0)]
  {
    var rec, o := SHORT_RECORD, SHORT_RECORD.options;
    assert Select([(o.link, Text(Link, rec.link))]) == [];
    TimesOf(rec);
    assert TimeFields(rec) == [];
    OwnersOf(rec);
    assert OwnerFields(rec) == [Number(Uid, 0)];
    assert Select([(o.srcInode, Number(SrcInode, rec.srcInode))]) == [];
  }

  lemma ShortSize(fields: seq<Field>)
    requires fields ==
      [Number(Version, 1), Number(Inode, 1), Text(Operation, "up"), Number(Timestamp, 1), Number(HashCode, 1), Number(Uid, 0)]
    ensures |Encode(fields)| < 50
  {
    ShortShort();
    EncodeAtMost(fields, 8);
    assert |fields| == 6 && Total(6, 8) == 48;
  }

  lemma ShortShort()
    ensures Short(Number(Version, 1), 8) && Short(Number(Inode, 1), 8) && Short(Text(Operation, "up"), 8)
    ensures Short(Number(Timestamp, 1), 8) && Short(Number(HashCode, 1), 8) && Short(Number(Uid, 0), 8)
  {
    NumberLength(Version, 1);
    NumberLength(Inode, 1);
    NumberLength(Timestamp, 1);
    NumberLength(HashCode, 1);
    NumberLength(Uid, 0);
    UpText();
  }

  lemma EncodeMore(f: Field, head: string, rest: seq<Field>, tail: string)
    requires EncodeField(f) == head && Encode(rest) == tail
    ensures Encode([f] + rest) == head + tail
  {
    assert ([f] + rest)[1..] == rest;
  }

  lemma SmallNumber(key: Key, n: nat)
    requires n < 10
    ensures EncodeField(Number(key, n)) == " " + NameOf(key) + "=" + [DigitOf(n)]
  {
  }

  lemma UpText()
    ensures EncodeField(Text(Operation, "up")) == " op=2,up"
  {
    PlainFits("up");
    PlainEscape("up");
  }

  lemma {:induction false} PlainEscape(s: string)
    requires forall i :: 0 <= i < |s| ==> Code(s[i]).None?
    ensures Escape(s) == s
  {
    if s != "" {
      PlainEscape(s[1..]);
    }
  }

  lemma ShortText(text: string)
    requires text == " ts=1" + (" hc=1" + (" ui=0" + ""))
    ensures Encode(FieldsOf(SHORT_RECORD)) == " dv=1" + (" id=1" + (" op=2,up" + text))
  {
    ShortFields();
    SmallNumber(Uid, 0);
    EncodeMore(Number(Uid, 0), " ui=0", [], "");
    SmallNumber(HashCode, 1);
    EncodeMore(Number(HashCode, 1), " hc=1", [Number(Uid, 0)] + [], " ui=0" + "");
    SmallNumber(Timestamp, 1);
    var three := [Number(Timestamp, 1)] + ([Number(HashCode, 1)] + ([Number(Uid, 0)] + []));
    EncodeMore(Number(Timestamp, 1), " ts=1", [Number(HashCode, 1)] + ([Number(Uid, 0)] + []), " hc=1" + (" ui=0" + ""));
    FirstThree(three, text);
    assert FieldsOf(SHORT_RECORD) == [Number(Version, 1)] + ([Number(Inode, 1)] + ([Text(Operation, "up")] + three));
  }

  lemma FirstThree(rest: seq<Field>, text: string)
    requires Encode(rest) == text
    ensures Encode([Number(Version, 1)] + ([Number(Inode, 1)] + ([Text(Operation, "up")] + rest))) == " dv=1" + (" id=1" + (" op=2,up" + text))
  {
    UpText();
    EncodeMore(Text(Operation, "up"), " op=2,up", rest, text);
    SmallNumber(Inode, 1);
    EncodeMore(Number(Inode, 1), " id=1", [Text(Operation, "up")] + rest, " op=2,up" + text);
    SmallNumber(Version, 1);
    EncodeMore(Number(Version, 1), " dv=1", [Number(Inode, 1)] + ([Text(Operation, "up")] + rest), " id=1" + (" op=2,up" + text));
  }

  lemma FrameOf(rec: Record, text: string, size: string)
    requires Encode(FieldsOf(rec)) == text && (rec.options.path ==> rec.me.parentInode != 0 || rec.me.name == "")
    requires |text| + 10 < 10000 && size == FourDigits(|text| + 10)
    ensures Pack(rec) == (D.Success, size + ("<rec" + text + "/rec>\n"))
  {
  }

  /** The bytes of this record. */
  lemma ShortBytes()
    ensures Pack(SHORT_RECORD) ==
              (D.Success, "0043" + ("<rec" + (" dv=1" + (" id=1" + (" op=2,up" + (" ts=1" + (" hc=1" + (" ui=0" + "")))))) + "/rec>\n"))
  {
    var text := " ts=1" + (" hc=1" + (" ui=0" + ""));
    ShortText(text);
    assert FourDigits(43) == "0043";
    FrameOf(SHORT_RECORD, " dv=1" + (" id=1" + (" op=2,up" + text)), "0043");
  }

  /** This record is packed, and refused when it is unpacked. */
  lemma ShortRecordRefused()
    ensures Pack(SHORT_RECORD).0 == D.Success && Unpack(Pack(SHORT_RECORD).1).0 != D.Success
  {
    ShortFields();
    ShortSize(FieldsOf(SHORT_RECORD));
    PackUnpack(SHORT_RECORD, "");
    assert Pack(SHORT_RECORD).1 + "" == Pack(SHORT_RECORD).1;
  }
}
