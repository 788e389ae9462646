/**
 Packing an update record into a line of the binlog and unpacking it again.
 */
module BinlogPack {
  import opened Wrappers
  import opened Record
  import opened BinlogText
  import D = Dentry
  import opened DataThread

  const MIN_SIZE := 64
  const MAX_SIZE := 9999
  const SIZE_LENGTH := 4
  const START_TAG := "<rec"

  // -------------------------------------------------------------------- single values

  const MODE_HARD_LINK: nat := 0x40_0000

  function ModeBits(m: Mode): nat {
    m.perm + 4096 * m.kind + (if m.hardLink then MODE_HARD_LINK else 0)
  }

  function ModeOf(n: int): Mode {
    Mode(n % 4096, n / 4096 % 16, n / MODE_HARD_LINK % 2 == 1)
  }

  ghost predicate ModeFits(m: Mode) {
    m.perm < 4096 && m.kind < 16
  }

  lemma ModeRoundTrip(m: Mode)
    requires ModeFits(m)
    ensures ModeOf(ModeBits(m)) == m
  {
    var n := ModeBits(m);
    assert n % 4096 == m.perm;
    assert n / 4096 == m.kind + (if m.hardLink then 1024 else 0);
    assert n / MODE_HARD_LINK == if m.hardLink then 1 else 0;
  }

  function Label(op: Op): string {
    match op
    case CreateDentry => "cr"
    case RemoveDentry => "rm"
    case RenameDentry => "rn"
    case UpdateDentry => "up"
    case SetXattr => "sx"
    case RemoveXattr => "rx"
    case NoOp => ""
  }

  function OpOf(text: string): Op {
    if text == "up" then UpdateDentry
    else if text == "cr" then CreateDentry
    else if text == "rm" then RemoveDentry
    else if text == "rn" then RenameDentry
    else if text == "sx" then SetXattr
    else if text == "rx" then RemoveXattr
    else NoOp
  }

  lemma LabelRoundTrip(op: Op)
    ensures OpOf(Label(op)) == op
  {
  }

  // -------------------------------------------------------------------------- packing

  /** The fields that their options select. */
  function Select(choices: seq<(bool, Field)>): seq<Field> {
    if choices == [] then []
    else if choices[0].0 then [choices[0].1] + Select(choices[1..])
    else Select(choices[1..])
  }

  function HeadFields(rec: Record): seq<Field> {
    [Number(Version, rec.version), Number(Inode, rec.inode), Text(Operation, Label(rec.op)), Number(Timestamp, rec.timestamp)]
  }

  function PathFields(rec: Record): seq<Field> {
    if rec.options.path then [Text(Namespace, rec.ns), Number(Parent, rec.me.parentInode), Text(Subname, rec.me.name)] else []
  }

  /** The birth time field carries the access time. */
  function TimeFields(rec: Record): seq<Field> {
    var o, s := rec.options, rec.stat;
    Select([(o.mode, Number(FileMode, ModeBits(s.mode))), (o.btime, Number(Btime, s.atime)), (o.atime, Number(Atime, s.atime)),
            (o.ctime, Number(Ctime, s.ctime)), (o.mtime, Number(Mtime, s.mtime))])
  }

  function OwnerFields(rec: Record): seq<Field> {
    var o, s := rec.options, rec.stat;
    Select([(o.uid, Number(Uid, s.uid)), (o.gid, Number(Gid, s.gid)), (o.size, Number(Size, s.size)),
            (o.spaceEnd, Number(SpaceEnd, s.spaceEnd)), (o.incAlloc, Number(IncAlloc, s.alloc))])
  }

  function StatFields(rec: Record): seq<Field> {
    TimeFields(rec) + OwnerFields(rec)
  }

  function OpFields(rec: Record): seq<Field> {
    match rec.op
    case RenameDentry => [Number(SrcParent, rec.src.parentInode), Text(SrcSubname, rec.src.name), Number(Flags, rec.flags)]
    case SetXattr => [Text(XattrName, rec.xattrKey), Text(XattrValue, rec.xattrValue)]
    case RemoveXattr => [Text(XattrName, rec.xattrKey)]
    case _ => []
  }

  function FieldsOf(rec: Record): seq<Field> {
    HeadFields(rec) + PathFields(rec) + [Number(HashCode, rec.hashCode)] + Select([(rec.options.link, Text(Link, rec.link))]) +
    StatFields(rec) + Select([(rec.options.srcInode, Number(SrcInode, rec.srcInode))]) + OpFields(rec)
  }

  function Encode(fields: seq<Field>): string {
    if fields == [] then "" else EncodeField(fields[0]) + Encode(fields[1..])
  }

  function Body(rec: Record): string {
    START_TAG + Encode(FieldsOf(rec)) + END_TAG
  }

  function Pack(rec: Record): (D.Code, string) {
    if rec.options.path && rec.me.parentInode == 0 && rec.me.name != "" then (D.Invalid, "")
    else if |Body(rec)| > MAX_SIZE then (D.Overflow, "")
    else (D.Success, FourDigits(|Body(rec)|) + Body(rec))
  }

  // ------------------------------------------------------------------------ unpacking

  /** The record read so far and which of the required fields were there. */
  datatype Parsed = Parsed(rec: Record, hasNs: bool, hasName: bool, hasHash: bool)

  const NOTHING := Parsed(ZERO_RECORD, false, false, false)

  datatype Kept = Fine | Unknown | Mistyped

  function SetStat(p: Parsed, stat: Stat, options: Options): Parsed {
    p.(rec := p.rec.(stat := stat, options := options))
  }

  function SetNumber(p: Parsed, key: Key, n: int): (Kept, Parsed) {
    var r, s, o := p.rec, p.rec.stat, p.rec.options;
    match key
    case Inode => (Fine, p.(rec := r.(inode := n)))
    case Parent => (Fine, p.(rec := r.(me := r.me.(parentInode := n))))
    case SrcParent => (Fine, p.(rec := r.(src := r.src.(parentInode := n))))
    case Flags => (Fine, p.(rec := r.(flags := n)))
    case Version => (Fine, p.(rec := r.(version := n)))
    case Timestamp => (Fine, p.(rec := r.(timestamp := n)))
    case FileMode => (Fine, SetStat(p, s.(mode := ModeOf(n)), o.(mode := true)))
    case Btime => (Fine, SetStat(p, s.(btime := n), o.(btime := true)))
    case Atime => (Fine, SetStat(p, s.(atime := n), o.(atime := true)))
    case Ctime => (Fine, SetStat(p, s.(ctime := n), o.(ctime := true)))
    case Mtime => (Fine, SetStat(p, s.(mtime := n), o.(mtime := true)))
    case Uid => (Fine, SetStat(p, s.(uid := n), o.(uid := true)))
    case Gid => (Fine, SetStat(p, s.(gid := n), o.(gid := true)))
    case Size => (Fine, SetStat(p, s.(size := n), o.(size := true)))
    case SpaceEnd => (Fine, SetStat(p, s.(spaceEnd := n), o.(spaceEnd := true)))
    case IncAlloc => (Fine, SetStat(p, s.(alloc := n), o.(incAlloc := true)))
    case HashCode => (Fine, p.(rec := r.(hashCode := n), hasHash := true))
    case SrcInode => (Fine, p.(rec := r.(srcInode := n, options := o.(srcInode := true))))
    case Other(_) => (Unknown, p)
    case _ => (Mistyped, p)
  }

  function SetText(p: Parsed, key: Key, v: string): (Kept, Parsed) {
    var r, o := p.rec, p.rec.options;
    match key
    case SrcSubname => (Fine, p.(rec := r.(src := r.src.(name := v))))
    case Operation => (Fine, p.(rec := r.(op := OpOf(v))))
    case Namespace => (Fine, p.(rec := r.(ns := v, options := o.(path := true)), hasNs := true))
    case Subname => (Fine, p.(rec := r.(me := r.me.(name := v), options := o.(path := true)), hasName := true))
    case Link => (Fine, p.(rec := r.(link := v, options := o.(link := true))))
    case XattrName => (Fine, p.(rec := r.(xattrKey := v)))
    case XattrValue => (Fine, p.(rec := r.(xattrValue := v)))
    case Other(_) => (Unknown, p)
    case _ => (Mistyped, p)
  }

  function SetField(p: Parsed, f: Field): (Kept, Parsed) {
    match f
    case Number(key, n) => SetNumber(p, key, n)
    case Text(key, v) => SetText(p, key, v)
  }

  /** Reads fields to the end of the record; fields of unknown name are passed
      over. */
  function ParseFields(t: string, p: Parsed): (D.Code, Parsed)
    decreases |t|
  {
    match NextField(t)
    case End => (D.Success, p)
    case Bad => (D.Invalid, p)
    case Got(f, rest) =>
      var (kept, p') := SetField(p, f);
      if kept == Mistyped then (D.Invalid, p') else ParseFields(rest, p')
  }

  /** All fields, of which the data version must come first. */
  function ParseAll(t: string): (D.Code, Parsed) {
    match NextField(t)
    case End => (D.NoEntry, NOTHING)
    case Bad => (D.Invalid, NOTHING)
    case Got(f, rest) =>
      if f.key != Version || !f.Number? then (D.Invalid, NOTHING)
      else ParseFields(rest, SetField(NOTHING, f).1)
  }

  /** The parsing loop: field after field from where the last one ended. */
  method ParseRecord(t: string) returns (code: D.Code, p: Parsed)
    ensures (code, p) == ParseAll(t)
  {
    var next := NextField(t);
    if next.End? {
      return D.NoEntry, NOTHING;
    } else if next.Bad? || next.field.key != Version || !next.field.Number? {
      return D.Invalid, NOTHING;
    }
    p := SetField(NOTHING, next.field).1;
    var rest := next.rest;
    next := NextField(rest);
    while next.Got?
      invariant next == NextField(rest) && ParseFields(rest, p) == ParseAll(t)
      decreases |rest|
    {
      var (kept, p') := SetField(p, next.field);
      p := p';
      if kept == Mistyped {
        return D.Invalid, p;
      }
      rest := next.rest;
      next := NextField(rest);
    }
    code := if next.End? then D.Success else D.Invalid;
  }

  predicate Required(p: Parsed) {
    var r := p.rec;
    && r.inode > 0 && r.version > 0 && p.hasHash && r.op != NoOp && r.timestamp > 0
    && (p.hasNs || p.hasName || r.me.parentInode != 0 ==>
          p.hasNs && p.hasName && (r.me.parentInode == 0 ==> r.me.name == ""))
    && (r.op == RenameDentry ==>
          r.me.parentInode != 0 && r.me.name != "" && r.src.parentInode != 0 && r.src.name != "")
  }

  /** Checks the frame of the record that starts s: its code, where the fields
      start and where the record ends. */
  function CheckRecord(s: string): (D.Code, nat, nat) {
    if |s| < MIN_SIZE then (D.NoData, 0, 0)
    else
      var (n, k) := ParseInt(s);
      if k + |START_TAG| > |s| || s[k..k + |START_TAG|] != START_TAG then (D.Invalid, 0, 0)
      else if n < MIN_SIZE - SIZE_LENGTH then (D.Invalid, 0, 0)
      else if n > |s| - SIZE_LENGTH then (D.Overflow, 0, 0)
      else
        var end := SIZE_LENGTH + n;
        if s[end - |END_TAG|..end] != END_TAG || k + |START_TAG| > end then (D.Invalid, 0, 0)
        else (D.Success, k + |START_TAG|, end)
  }

  function Unpack(s: string): (D.Code, Record, nat) {
    var (code, start, end) := CheckRecord(s);
    if code != D.Success || !(start <= end <= |s|) then (code, ZERO_RECORD, 0)
    else
      var (parse, p) := ParseAll(s[start..end]);
      if parse != D.Success then (parse, p.rec, end)
      else if !Required(p) then (D.NoEntry, p.rec, end)
      else (D.Success, p.rec, end)
  }

  // ------------------------------------------------------------- reading encoded fields

  ghost predicate Readable(f: Field) {
    !f.key.Other? && (f.Text? ==> Fits(f.value))
  }

  lemma FieldReads(f: Field, rest: string)
    requires Readable(f) && Tail(rest)
    ensures NextField(EncodeField(f) + rest) == Got(f, rest)
  {
    match f
    case Number(key, n) => NumberReads(key, n, rest);
    case Text(key, value) => TextReads(key, value, rest);
  }

  lemma {:induction false} EncodeTail(fields: seq<Field>)
    ensures Tail(Encode(fields) + END_TAG)
  {
    if fields != [] {
      EncodeTail(fields[1..]);
      Regroup(EncodeField(fields[0]), Encode(fields[1..]), END_TAG);
    }
  }

  /** What the parser makes of a list of fields. */
  function Fold(p: Parsed, fields: seq<Field>): Parsed
    decreases |fields|
  {
    if fields == [] then p else Fold(SetField(p, fields[0]).1, fields[1..])
  }

  ghost predicate Welcome(f: Field) {
    Readable(f) && (f.Text? <==> f.key in {Operation, Namespace, Subname, Link, SrcSubname, XattrName, XattrValue})
  }

  lemma WelcomeIsFine(p: Parsed, f: Field)
    requires Welcome(f)
    ensures SetField(p, f).0 == Fine
  {
  }

  lemma {:induction false} ParseEncoded(fields: seq<Field>, p: Parsed)
    requires forall i :: 0 <= i < |fields| ==> Welcome(fields[i])
    ensures ParseFields(Encode(fields) + END_TAG, p) == (D.Success, Fold(p, fields))
    decreases |fields|
  {
    if fields == [] {
      assert Encode(fields) + END_TAG == END_TAG;
    } else {
      var rest := Encode(fields[1..]) + END_TAG;
      Regroup(EncodeField(fields[0]), Encode(fields[1..]), END_TAG);
      EncodeTail(fields[1..]);
      FieldReads(fields[0], rest);
      WelcomeIsFine(p, fields[0]);
      ParseEncoded(fields[1..], SetField(p, fields[0]).1);
    }
  }

  lemma {:induction false} FoldMore(p: Parsed, a: seq<Field>, b: seq<Field>)
    ensures Fold(p, a + b) == Fold(Fold(p, a), b)
    decreases |a|
  {
    if a == [] {
      assert a + b == b;
    } else {
      assert (a + b)[1..] == a[1..] + b;
      FoldMore(SetField(p, a[0]).1, a[1..], b);
    }
  }

  // ------------------------------------------- the fields of a record give the record back

  lemma FoldOne(p: Parsed, f: Field)
    ensures Fold(p, [f]) == SetField(p, f).1
  {
    assert [f][1..] == [];
  }

  function SetIf(p: Parsed, choice: (bool, Field)): Parsed {
    if choice.0 then SetField(p, choice.1).1 else p
  }

  function SetIfs(p: Parsed, choices: seq<(bool, Field)>): Parsed
    decreases |choices|
  {
    if choices == [] then p else SetIfs(SetIf(p, choices[0]), choices[1..])
  }

  lemma {:induction false} FoldSelect(p: Parsed, choices: seq<(bool, Field)>)
    ensures Fold(p, Select(choices)) == SetIfs(p, choices)
    decreases |choices|
  {
    if choices != [] {
      var rest := Select(choices[1..]);
      if choices[0].0 {
        FoldMore(p, [choices[0].1], rest);
        FoldOne(p, choices[0].1);
      }
      FoldSelect(SetIf(p, choices[0]), choices[1..]);
    }
  }

  lemma FoldSelectOne(p: Parsed, c: (bool, Field))
    ensures Fold(p, Select([c])) == SetIf(p, c)
  {
    FoldSelect(p, [c]);
    assert [c][1..] == [];
  }

  lemma FoldSelectFive(p: Parsed, a: (bool, Field), b: (bool, Field), c: (bool, Field), d: (bool, Field), e: (bool, Field))
    ensures Fold(p, Select([a, b, c, d, e])) == SetIf(SetIf(SetIf(SetIf(SetIf(p, a), b), c), d), e)
  {
    FoldSelect(p, [a, b, c, d, e]);
    assert [a, b, c, d, e][1..] == [b, c, d, e] && [b, c, d, e][1..] == [c, d, e];
    assert [c, d, e][1..] == [d, e] && [d, e][1..] == [e] && [e][1..] == [];
    assert SetIfs(p, [a, b, c, d, e]) == SetIfs(SetIf(p, a), [b, c, d, e]);
    assert SetIfs(SetIf(p, a), [b, c, d, e]) == SetIfs(SetIf(SetIf(p, a), b), [c, d, e]);
    var q := SetIf(SetIf(SetIf(p, a), b), c);
    assert SetIfs(SetIf(SetIf(p, a), b), [c, d, e]) == SetIfs(q, [d, e]);
    assert SetIfs(q, [d, e]) == SetIfs(SetIf(q, d), [e]);
    assert SetIfs(SetIf(q, d), [e]) == SetIfs(SetIf(SetIf(q, d), e), []);
  }

  lemma FoldThree(p: Parsed, f: Field, g: Field, h: Field)
    ensures Fold(p, [f, g, h]) == SetField(SetField(SetField(p, f).1, g).1, h).1
  {
    assert [f, g, h] == [f] + [g, h] && [g, h] == [g] + [h];
    FoldMore(p, [f], [g, h]);
    FoldMore(SetField(p, f).1, [g], [h]);
    FoldOne(p, f);
    FoldOne(SetField(p, f).1, g);
    FoldOne(SetField(SetField(p, f).1, g).1, h);
  }

  lemma FoldTwo(p: Parsed, f: Field, g: Field)
    ensures Fold(p, [f, g]) == SetField(SetField(p, f).1, g).1
  {
    assert [f, g] == [f] + [g];
    FoldMore(p, [f], [g]);
    FoldOne(p, f);
    FoldOne(SetField(p, f).1, g);
  }

  lemma HeadFold(rec: Record)
    ensures Fold(NOTHING, HeadFields(rec)) ==
              NOTHING.(rec := ZERO_RECORD.(version := rec.version, inode := rec.inode, op := rec.op, timestamp := rec.timestamp))
  {
    var fields := HeadFields(rec);
    assert fields == fields[..1] + fields[1..];
    FoldMore(NOTHING, fields[..1], fields[1..]);
    FoldOne(NOTHING, fields[0]);
    FoldThree(SetField(NOTHING, fields[0]).1, fields[1], fields[2], fields[3]);
    LabelRoundTrip(rec.op);
  }

  lemma PathFold(p: Parsed, rec: Record)
    requires p.rec.ns == "" && p.rec.me == PName(0, "") && !p.rec.options.path && !p.hasNs && !p.hasName
    ensures Fold(p, PathFields(rec)) ==
              p.(rec := p.rec.(ns := if rec.options.path then rec.ns else "",
                               me := if rec.options.path then rec.me else PName(0, ""),
                               options := p.rec.options.(path := rec.options.path)),
                 hasNs := rec.options.path, hasName := rec.options.path)
  {
    if rec.options.path {
      FoldThree(p, Text(Namespace, rec.ns), Number(Parent, rec.me.parentInode), Text(Subname, rec.me.name));
    }
  }

  function WithOp(p: Parsed, rec: Record): Parsed {
    p.(rec := p.rec.(src := if rec.op == RenameDentry then rec.src else PName(0, ""),
                     flags := if rec.op == RenameDentry then rec.flags else 0,
                     xattrKey := if rec.op == SetXattr || rec.op == RemoveXattr then rec.xattrKey else "",
                     xattrValue := if rec.op == SetXattr then rec.xattrValue else ""))
  }

  ghost predicate NoOpFields(p: Parsed) {
    p.rec.src == PName(0, "") && p.rec.flags == 0 && p.rec.xattrKey == "" && p.rec.xattrValue == ""
  }

  lemma RenameFold(p: Parsed, rec: Record)
    requires NoOpFields(p) && rec.op == RenameDentry
    ensures Fold(p, OpFields(rec)) == WithOp(p, rec)
  {
    FoldThree(p, Number(SrcParent, rec.src.parentInode), Text(SrcSubname, rec.src.name), Number(Flags, rec.flags));
  }

  lemma XattrFold(p: Parsed, rec: Record)
    requires NoOpFields(p) && (rec.op == SetXattr || rec.op == RemoveXattr)
    ensures Fold(p, OpFields(rec)) == WithOp(p, rec)
  {
    if rec.op == SetXattr {
      FoldTwo(p, Text(XattrName, rec.xattrKey), Text(XattrValue, rec.xattrValue));
    } else {
      FoldOne(p, Text(XattrName, rec.xattrKey));
    }
  }

  lemma OpFold(p: Parsed, rec: Record)
    requires NoOpFields(p)
    ensures Fold(p, OpFields(rec)) == WithOp(p, rec)
  {
    if rec.op == RenameDentry {
      RenameFold(p, rec);
    } else if rec.op == SetXattr || rec.op == RemoveXattr {
      XattrFold(p, rec);
    }
  }

  function PutMode(p: Parsed, b: bool, v: Mode): Parsed {
    SetStat(p, p.rec.stat.(mode := if b then v else ZERO_MODE), p.rec.options.(mode := b))
  }

  function PutBtime(p: Parsed, b: bool, v: int): Parsed {
    SetStat(p, p.rec.stat.(btime := if b then v else 0), p.rec.options.(btime := b))
  }

  function PutAtime(p: Parsed, b: bool, v: int): Parsed {
    SetStat(p, p.rec.stat.(atime := if b then v else 0), p.rec.options.(atime := b))
  }

  function PutCtime(p: Parsed, b: bool, v: int): Parsed {
    SetStat(p, p.rec.stat.(ctime := if b then v else 0), p.rec.options.(ctime := b))
  }

  function PutMtime(p: Parsed, b: bool, v: int): Parsed {
    SetStat(p, p.rec.stat.(mtime := if b then v else 0), p.rec.options.(mtime := b))
  }

  function PutUid(p: Parsed, b: bool, v: int): Parsed {
    SetStat(p, p.rec.stat.(uid := if b then v else 0), p.rec.options.(uid := b))
  }

  function PutGid(p: Parsed, b: bool, v: int): Parsed {
    SetStat(p, p.rec.stat.(gid := if b then v else 0), p.rec.options.(gid := b))
  }

  function PutSize(p: Parsed, b: bool, v: int): Parsed {
    SetStat(p, p.rec.stat.(size := if b then v else 0), p.rec.options.(size := b))
  }

  function PutSpaceEnd(p: Parsed, b: bool, v: int): Parsed {
    SetStat(p, p.rec.stat.(spaceEnd := if b then v else 0), p.rec.options.(spaceEnd := b))
  }

  function PutAlloc(p: Parsed, b: bool, v: int): Parsed {
    SetStat(p, p.rec.stat.(alloc := if b then v else 0), p.rec.options.(incAlloc := b))
  }

  function WithTimes(p: Parsed, rec: Record): Parsed {
    var o, s := rec.options, rec.stat;
    PutMtime(PutCtime(PutAtime(PutBtime(PutMode(p, o.mode, s.mode), o.btime, s.atime), o.atime, s.atime), o.ctime, s.ctime), o.mtime, s.mtime)
  }

  function WithOwner(p: Parsed, rec: Record): Parsed {
    var o, s := rec.options, rec.stat;
    PutAlloc(PutSpaceEnd(PutSize(PutGid(PutUid(p, o.uid, s.uid), o.gid, s.gid), o.size, s.size), o.spaceEnd, s.spaceEnd), o.incAlloc, s.alloc)
  }

  ghost predicate NoTimes(p: Parsed) {
    var s, o := p.rec.stat, p.rec.options;
    && s.mode == ZERO_MODE && s.btime == 0 && s.atime == 0 && s.ctime == 0 && s.mtime == 0
    && !o.mode && !o.btime && !o.atime && !o.ctime && !o.mtime
  }

  ghost predicate NoOwner(p: Parsed) {
    var s, o := p.rec.stat, p.rec.options;
    && s.uid == 0 && s.gid == 0 && s.size == 0 && s.spaceEnd == 0 && s.alloc == 0
    && !o.uid && !o.gid && !o.size && !o.spaceEnd && !o.incAlloc
  }

  lemma SetsMode(p: Parsed, b: bool, v: Mode)
    requires p.rec.stat.mode == ZERO_MODE && !p.rec.options.mode && (b ==> ModeFits(v))
    ensures SetIf(p, (b, Number(FileMode, ModeBits(v)))) == PutMode(p, b, v)
  {
    if b {
      ModeRoundTrip(v);
    }
  }

  lemma SetsBtime(p: Parsed, b: bool, v: int)
    requires p.rec.stat.btime == 0 && !p.rec.options.btime
    ensures SetIf(p, (b, Number(Btime, v))) == PutBtime(p, b, v)
  {
  }

  lemma SetsAtime(p: Parsed, b: bool, v: int)
    requires p.rec.stat.atime == 0 && !p.rec.options.atime
    ensures SetIf(p, (b, Number(Atime, v))) == PutAtime(p, b, v)
  {
  }

  lemma SetsCtime(p: Parsed, b: bool, v: int)
    requires p.rec.stat.ctime == 0 && !p.rec.options.ctime
    ensures SetIf(p, (b, Number(Ctime, v))) == PutCtime(p, b, v)
  {
  }

  lemma SetsMtime(p: Parsed, b: bool, v: int)
    requires p.rec.stat.mtime == 0 && !p.rec.options.mtime
    ensures SetIf(p, (b, Number(Mtime, v))) == PutMtime(p, b, v)
  {
  }

  lemma SetsUid(p: Parsed, b: bool, v: int)
    requires p.rec.stat.uid == 0 && !p.rec.options.uid
    ensures SetIf(p, (b, Number(Uid, v))) == PutUid(p, b, v)
  {
  }

  lemma SetsGid(p: Parsed, b: bool, v: int)
    requires p.rec.stat.gid == 0 && !p.rec.options.gid
    ensures SetIf(p, (b, Number(Gid, v))) == PutGid(p, b, v)
  {
  }

  lemma SetsSize(p: Parsed, b: bool, v: int)
    requires p.rec.stat.size == 0 && !p.rec.options.size
    ensures SetIf(p, (b, Number(Size, v))) == PutSize(p, b, v)
  {
  }

  lemma SetsSpaceEnd(p: Parsed, b: bool, v: int)
    requires p.rec.stat.spaceEnd == 0 && !p.rec.options.spaceEnd
    ensures SetIf(p, (b, Number(SpaceEnd, v))) == PutSpaceEnd(p, b, v)
  {
  }

  lemma SetsAlloc(p: Parsed, b: bool, v: int)
    requires p.rec.stat.alloc == 0 && !p.rec.options.incAlloc
    ensures SetIf(p, (b, Number(IncAlloc, v))) == PutAlloc(p, b, v)
  {
  }

  lemma TimeFold(p: Parsed, rec: Record)
    requires NoTimes(p) && (rec.options.mode ==> ModeFits(rec.stat.mode))
    ensures Fold(p, TimeFields(rec)) == WithTimes(p, rec)
  {
    var o, s := rec.options, rec.stat;
    FoldSelectFive(p, (o.mode, Number(FileMode, ModeBits(s.mode))), (o.btime, Number(Btime, s.atime)),
                   (o.atime, Number(Atime, s.atime)), (o.ctime, Number(Ctime, s.ctime)), (o.mtime, Number(Mtime, s.mtime)));
    SetsMode(p, o.mode, s.mode);
    var p1 := PutMode(p, o.mode, s.mode);
    SetsBtime(p1, o.btime, s.atime);
    var p2 := PutBtime(p1, o.btime, s.atime);
    SetsAtime(p2, o.atime, s.atime);
    var p3 := PutAtime(p2, o.atime, s.atime);
    SetsCtime(p3, o.ctime, s.ctime);
    var p4 := PutCtime(p3, o.ctime, s.ctime);
    SetsMtime(p4, o.mtime, s.mtime);
  }

  lemma OwnerFold(p: Parsed, rec: Record)
    requires NoOwner(p)
    ensures Fold(p, OwnerFields(rec)) == WithOwner(p, rec)
  {
    var o, s := rec.options, rec.stat;
    FoldSelectFive(p, (o.uid, Number(Uid, s.uid)), (o.gid, Number(Gid, s.gid)), (o.size, Number(Size, s.size)),
                   (o.spaceEnd, Number(SpaceEnd, s.spaceEnd)), (o.incAlloc, Number(IncAlloc, s.alloc)));
    SetsUid(p, o.uid, s.uid);
    var p1 := PutUid(p, o.uid, s.uid);
    SetsGid(p1, o.gid, s.gid);
    var p2 := PutGid(p1, o.gid, s.gid);
    SetsSize(p2, o.size, s.size);
    var p3 := PutSize(p2, o.size, s.size);
    SetsSpaceEnd(p3, o.spaceEnd, s.spaceEnd);
    var p4 := PutSpaceEnd(p3, o.spaceEnd, s.spaceEnd);
    SetsAlloc(p4, o.incAlloc, s.alloc);
  }

  ghost function FirstPart(rec: Record): seq<Field> {
    HeadFields(rec) + PathFields(rec) + [Number(HashCode, rec.hashCode)] + Select([(rec.options.link, Text(Link, rec.link))])
  }

  lemma FirstFold(rec: Record)
    ensures Fold(NOTHING, FirstPart(rec)) == FirstRead(rec)
  {
    var p1 := Fold(NOTHING, HeadFields(rec));
    HeadFold(rec);
    FoldMore(NOTHING, HeadFields(rec), PathFields(rec));
    PathFold(p1, rec);
    var p2 := Fold(p1, PathFields(rec));
    FoldMore(NOTHING, HeadFields(rec) + PathFields(rec), [Number(HashCode, rec.hashCode)]);
    FoldOne(p2, Number(HashCode, rec.hashCode));
    var p3 := Fold(p2, [Number(HashCode, rec.hashCode)]);
    var choice := (rec.options.link, Text(Link, rec.link));
    FoldMore(NOTHING, HeadFields(rec) + PathFields(rec) + [Number(HashCode, rec.hashCode)], Select([choice]));
    FoldSelectOne(p3, choice);
  }

  function SrcChoice(rec: Record): (bool, Field) {
    (rec.options.srcInode, Number(SrcInode, rec.srcInode))
  }

  lemma FoldParts(p: Parsed, a: seq<Field>, b: seq<Field>, c: seq<Field>, d: seq<Field>)
    ensures Fold(p, a + b + c + d) == Fold(Fold(Fold(Fold(p, a), b), c), d)
  {
    FoldMore(p, a + b + c, d);
    FoldMore(p, a + b, c);
    FoldMore(p, a, b);
  }

  function WithSrc(p: Parsed, rec: Record): Parsed {
    p.(rec := p.rec.(srcInode := if rec.options.srcInode then rec.srcInode else 0,
                     options := p.rec.options.(srcInode := rec.options.srcInode)))
  }

  lemma LastFold(p: Parsed, rec: Record)
    requires !p.rec.options.srcInode && p.rec.srcInode == 0 && NoOpFields(p)
    ensures Fold(Fold(p, Select([SrcChoice(rec)])), OpFields(rec)) == WithOp(WithSrc(p, rec), rec)
  {
    FoldSelectOne(p, SrcChoice(rec));
    assert SetIf(p, SrcChoice(rec)) == WithSrc(p, rec);
    OpFold(WithSrc(p, rec), rec);
  }

  ghost function FirstRead(rec: Record): Parsed {
    Parsed(ZERO_RECORD.(version := rec.version, inode := rec.inode, op := rec.op, timestamp := rec.timestamp,
                        ns := if rec.options.path then rec.ns else "",
                        me := if rec.options.path then rec.me else PName(0, ""),
                        hashCode := rec.hashCode,
                        link := if rec.options.link then rec.link else "",
                        options := NO_OPTIONS.(path := rec.options.path, link := rec.options.link)),
           rec.options.path, rec.options.path, true)
  }

  lemma TimesRead(p: Parsed, rec: Record)
    ensures var q, l, o := WithTimes(p, rec), Logged(rec).stat, rec.options;
      && q.rec.stat == p.rec.stat.(mode := l.mode, btime := l.btime, atime := l.atime, ctime := l.ctime, mtime := l.mtime)
      && q.rec.options == p.rec.options.(mode := o.mode, btime := o.btime, atime := o.atime, ctime := o.ctime, mtime := o.mtime)
      && q == p.(rec := p.rec.(stat := q.rec.stat, options := q.rec.options))
  {
  }

  lemma OwnerRead(p: Parsed, rec: Record)
    ensures var q, l, o := WithOwner(p, rec), Logged(rec).stat, rec.options;
      && q.rec.stat == p.rec.stat.(uid := l.uid, gid := l.gid, size := l.size, spaceEnd := l.spaceEnd, alloc := l.alloc)
      && q.rec.options == p.rec.options.(uid := o.uid, gid := o.gid, size := o.size, spaceEnd := o.spaceEnd, incAlloc := o.incAlloc)
      && q == p.(rec := p.rec.(stat := q.rec.stat, options := q.rec.options))
  {
  }

  lemma StatRead(rec: Record)
    ensures var q := WithOwner(WithTimes(FirstRead(rec), rec), rec);
      && q.rec.stat == Logged(rec).stat && q.rec.options == rec.options.(srcInode := false)
      && q == FirstRead(rec).(rec := FirstRead(rec).rec.(stat := q.rec.stat, options := q.rec.options))
  {
    TimesRead(FirstRead(rec), rec);
    OwnerRead(WithTimes(FirstRead(rec), rec), rec);
  }

  lemma RestRead(rec: Record, q: Parsed)
    requires q.rec.stat == Logged(rec).stat && q.rec.options == rec.options.(srcInode := false)
    requires q == FirstRead(rec).(rec := FirstRead(rec).rec.(stat := q.rec.stat, options := q.rec.options))
    ensures WithOp(WithSrc(q, rec), rec) == Parsed(Logged(rec), rec.options.path, rec.options.path, true)
  {
  }

  lemma AllRead(rec: Record)
    ensures WithOp(WithSrc(WithOwner(WithTimes(FirstRead(rec), rec), rec), rec), rec) ==
              Parsed(Logged(rec), rec.options.path, rec.options.path, true)
  {
    StatRead(rec);
    RestRead(rec, WithOwner(WithTimes(FirstRead(rec), rec), rec));
  }

  lemma StatFold(p: Parsed, rec: Record)
    requires NoTimes(p) && NoOwner(p) && (rec.options.mode ==> ModeFits(rec.stat.mode))
    ensures Fold(p, StatFields(rec)) == WithOwner(WithTimes(p, rec), rec)
  {
    FoldMore(p, TimeFields(rec), OwnerFields(rec));
    TimeFold(p, rec);
    OwnerFold(WithTimes(p, rec), rec);
  }

  lemma StatKeepsRest(p: Parsed, rec: Record)
    requires !p.rec.options.srcInode && p.rec.srcInode == 0 && NoOpFields(p)
    ensures var q := WithOwner(WithTimes(p, rec), rec); !q.rec.options.srcInode && q.rec.srcInode == 0 && NoOpFields(q)
  {
  }

  /** Setting all fields of a record gives what the log keeps of it. */
  lemma FieldsFold(rec: Record)
    requires rec.options.mode ==> ModeFits(rec.stat.mode)
    ensures Fold(NOTHING, FieldsOf(rec)) == Parsed(Logged(rec), rec.options.path, rec.options.path, true)
  {
    FoldParts(NOTHING, FirstPart(rec), StatFields(rec), Select([SrcChoice(rec)]), OpFields(rec));
    FirstFold(rec);
    StatFold(FirstRead(rec), rec);
    StatKeepsRest(FirstRead(rec), rec);
    LastFold(WithOwner(WithTimes(FirstRead(rec), rec), rec), rec);
    AllRead(rec);
  }

  // ----------------------------------------------------------------- the round trip

  /** No string of the record gains a digit in its length by escaping. */
  ghost predicate TextsFit(rec: Record) {
    && (rec.options.path ==> Fits(rec.ns) && Fits(rec.me.name))
    && (rec.options.link ==> Fits(rec.link))
    && (rec.op == RenameDentry ==> Fits(rec.src.name))
    && (rec.op == SetXattr || rec.op == RemoveXattr ==> Fits(rec.xattrKey))
    && (rec.op == SetXattr ==> Fits(rec.xattrValue))
  }

  ghost predicate AllWelcome(fields: seq<Field>) {
    forall i :: 0 <= i < |fields| ==> Welcome(fields[i])
  }

  lemma WelcomeMore(a: seq<Field>, b: seq<Field>)
    requires AllWelcome(a) && AllWelcome(b)
    ensures AllWelcome(a + b)
  {
  }

  lemma {:induction false} SelectWelcome(choices: seq<(bool, Field)>)
    requires forall i :: 0 <= i < |choices| ==> choices[i].0 ==> Welcome(choices[i].1)
    ensures AllWelcome(Select(choices))
  {
    if choices != [] {
      SelectWelcome(choices[1..]);
    }
  }

  lemma {:induction false} PlainFits(s: string)
    requires forall i :: 0 <= i < |s| ==> Code(s[i]).None?
    ensures Escape(s) == s
  {
    if s != "" {
      PlainFits(s[1..]);
    }
  }

  lemma HeadWelcome(rec: Record)
    ensures AllWelcome(HeadFields(rec))
  {
    PlainFits(Label(rec.op));
  }

  lemma FirstWelcome(rec: Record)
    requires TextsFit(rec)
    ensures AllWelcome(FirstPart(rec))
  {
    HeadWelcome(rec);
    SelectWelcome([(rec.options.link, Text(Link, rec.link))]);
    WelcomeMore(HeadFields(rec), PathFields(rec));
    WelcomeMore(HeadFields(rec) + PathFields(rec), [Number(HashCode, rec.hashCode)]);
    WelcomeMore(HeadFields(rec) + PathFields(rec) + [Number(HashCode, rec.hashCode)], Select([(rec.options.link, Text(Link, rec.link))]));
  }

  lemma StatWelcome(rec: Record)
    ensures AllWelcome(StatFields(rec))
  {
    var o, s := rec.options, rec.stat;
    SelectWelcome([(o.mode, Number(FileMode, ModeBits(s.mode))), (o.btime, Number(Btime, s.atime)), (o.atime, Number(Atime, s.atime)),
                   (o.ctime, Number(Ctime, s.ctime)), (o.mtime, Number(Mtime, s.mtime))]);
    SelectWelcome([(o.uid, Number(Uid, s.uid)), (o.gid, Number(Gid, s.gid)), (o.size, Number(Size, s.size)),
                   (o.spaceEnd, Number(SpaceEnd, s.spaceEnd)), (o.incAlloc, Number(IncAlloc, s.alloc))]);
    WelcomeMore(TimeFields(rec), OwnerFields(rec));
  }

  lemma FieldsWelcome(rec: Record)
    requires TextsFit(rec)
    ensures AllWelcome(FieldsOf(rec))
  {
    FirstWelcome(rec);
    StatWelcome(rec);
    SelectWelcome([SrcChoice(rec)]);
    WelcomeMore(FirstPart(rec), StatFields(rec));
    WelcomeMore(FirstPart(rec) + StatFields(rec), Select([SrcChoice(rec)]));
    assert AllWelcome(OpFields(rec));
    WelcomeMore(FirstPart(rec) + StatFields(rec) + Select([SrcChoice(rec)]), OpFields(rec));
  }

  lemma ParseAllEncoded(fields: seq<Field>)
    requires fields != [] && AllWelcome(fields) && fields[0].Number? && fields[0].key == Version
    ensures ParseAll(Encode(fields) + END_TAG) == (D.Success, Fold(NOTHING, fields))
  {
    Regroup(EncodeField(fields[0]), Encode(fields[1..]), END_TAG);
    EncodeTail(fields[1..]);
    FieldReads(fields[0], Encode(fields[1..]) + END_TAG);
    ParseEncoded(fields[1..], SetField(NOTHING, fields[0]).1);
  }

  lemma FieldsStart(rec: Record)
    ensures FieldsOf(rec) != [] && FieldsOf(rec)[0] == Number(Version, rec.version)
  {
    assert HeadFields(rec)[0] == Number(Version, rec.version);
    var more := PathFields(rec) + [Number(HashCode, rec.hashCode)];
    assert FieldsOf(rec)[0] == HeadFields(rec)[0];
  }

  /** The frame of a packed record, whatever text it holds. */
  lemma FrameChecks(n: nat, text: string, rest: string)
    requires n == |START_TAG| + |text| + |END_TAG| && n < 10000
    ensures var s := FourDigits(n) + (START_TAG + text + END_TAG) + rest;
      && |s| >= SIZE_LENGTH + n
      && (n >= MIN_SIZE - SIZE_LENGTH ==>
            CheckRecord(s) == (D.Success, 8, SIZE_LENGTH + n) && s[8..SIZE_LENGTH + n] == text + END_TAG)
      && (n < MIN_SIZE - SIZE_LENGTH ==> CheckRecord(s).0 != D.Success)
  {
    var body := START_TAG + text + END_TAG;
    var s := FourDigits(n) + body + rest;
    Regroup(FourDigits(n), body, rest);
    ParseDigits(FourDigits(n), body + rest);
    ValueOfFour(n);
    assert s[4..4 + n] == body;
    assert s[4..8] == body[..4] == START_TAG;
    assert s[8..4 + n] == body[4..] == text + END_TAG;
    assert s[4 + n - 6..4 + n] == body[n - 6..] == END_TAG;
  }

  lemma PackShape(rec: Record)
    requires Pack(rec).0 == D.Success
    ensures Pack(rec).1 == FourDigits(|Body(rec)|) + Body(rec) && |Body(rec)| < 10000
    ensures |Body(rec)| == |START_TAG| + |Encode(FieldsOf(rec))| + |END_TAG|
    ensures |Pack(rec).1| == SIZE_LENGTH + |Body(rec)|
  {
  }

  /** Unpacking a packed record, with anything behind it, gives what the log
      keeps of the record and ends where the record ends. A record whose body is
      shorter than the least size is refused. */
  lemma PackUnpack(rec: Record, rest: string)
    requires Pack(rec).0 == D.Success && TextsFit(rec) && (rec.options.mode ==> ModeFits(rec.stat.mode))
    ensures var (code, rec', end) := Unpack(Pack(rec).1 + rest);
      if |Body(rec)| < MIN_SIZE - SIZE_LENGTH then code != D.Success
      else
        && rec' == Logged(rec) && end == |Pack(rec).1|
        && code == if Required(Parsed(Logged(rec), rec.options.path, rec.options.path, true)) then D.Success else D.NoEntry
  {
    var fields := FieldsOf(rec);
    PackShape(rec);
    FrameChecks(|Body(rec)|, Encode(fields), rest);
    FieldsWelcome(rec);
    FieldsStart(rec);
    ParseAllEncoded(fields);
    FieldsFold(rec);
  }
}
