/**
 The text of a binlog record: escaped strings, decimal numbers and fields.
 */
module BinlogText {
  import opened Wrappers

  // ------------------------------------------------------------------------ escapes

  /** The letter that stands for a character after a backslash. */
  function Code(c: char): Option<char> {
    if c == '\0' then Some('0')
    else if c == '\n' then Some('n')
    else if c == '\U{0B}' then Some('v')
    else if c == '\U{0C}' then Some('f')
    else if c == '\r' then Some('r')
    else if c == '\\' then Some('\\')
    else if c == '<' then Some('l')
    else if c == '>' then Some('g')
    else None
  }

  function Decode(c: char): Option<char> {
    if c == '0' then Some('\0')
    else if c == 'n' then Some('\n')
    else if c == 'v' then Some('\U{0B}')
    else if c == 'f' then Some('\U{0C}')
    else if c == 'r' then Some('\r')
    else if c == '\\' then Some('\\')
    else if c == 'l' then Some('<')
    else if c == 'g' then Some('>')
    else None
  }

  function EscapeChar(c: char): string {
    if Code(c).Some? then ['\\', Code(c).value] else [c]
  }

  function Escape(s: string): string {
    if s == "" then "" else EscapeChar(s[0]) + Escape(s[1..])
  }

  function Unescape(s: string): string {
    if s == "" then ""
    else if s[0] == '\\' && |s| > 1 && Decode(s[1]).Some? then [Decode(s[1]).value] + Unescape(s[2..])
    else [s[0]] + Unescape(s[1..])
  }

  /** Unescaping undoes escaping. */
  lemma {:induction false} UnescapeEscape(s: string)
    ensures Unescape(Escape(s)) == s
  {
    if s != "" {
      UnescapeEscape(s[1..]);
      if Code(s[0]).Some? {
        assert Escape(s)[2..] == Escape(s[1..]);
      } else {
        assert Escape(s)[1..] == Escape(s[1..]);
      }
    }
  }

  predicate Plain(c: char) {
    c != '<' && c != '>' && c != '\n' && c != '\0'
  }

  /** Escaped text has no tag character and no line end. */
  lemma {:induction false} EscapePlain(s: string)
    ensures forall i :: 0 <= i < |Escape(s)| ==> Plain(Escape(s)[i])
  {
    if s != "" {
      EscapePlain(s[1..]);
    }
  }

  lemma {:induction false} EscapeLength(s: string)
    ensures |s| <= |Escape(s)| <= 2 * |s|
  {
    if s != "" {
      EscapeLength(s[1..]);
    }
  }

  lemma {:induction false} UnescapeLength(s: string)
    ensures |Unescape(s)| <= |s|
  {
    if s != "" {
      if s[0] == '\\' && |s| > 1 && Decode(s[1]).Some? {
        UnescapeLength(s[2..]);
      } else {
        UnescapeLength(s[1..]);
      }
    }
  }

  /** The parser unescapes only text that holds a backslash. */
  function Unescaped(s: string): string {
    if '\\' in s then Unescape(s) else s
  }

  lemma {:induction false} NothingToUnescape(s: string)
    requires '\\' !in s
    ensures Unescape(s) == s
  {
    if s != "" {
      NothingToUnescape(s[1..]);
    }
  }

  lemma UnescapedEscape(s: string)
    ensures Unescaped(Escape(s)) == s
  {
    UnescapeEscape(s);
    if '\\' !in Escape(s) {
      NothingToUnescape(Escape(s));
    }
  }

  // ------------------------------------------------------------------------ numbers

  predicate IsDigit(c: char) {
    '0' <= c <= '9'
  }

  function DigitOf(n: nat): char
    requires n < 10
  {
    ('0' as int + n) as char
  }

  function DigitValue(c: char): nat
    requires IsDigit(c)
  {
    c as int - '0' as int
  }

  function Digits(n: nat): (s: string)
    ensures |s| > 0 && forall i :: 0 <= i < |s| ==> IsDigit(s[i])
  {
    if n < 10 then [DigitOf(n)] else Digits(n / 10) + [DigitOf(n % 10)]
  }

  /** A number as printed with %d. */
  function Decimal(n: int): (s: string)
    ensures |s| > 0
  {
    if n < 0 then "-" + Digits(-n) else Digits(n)
  }

  /** A record size as printed with %04d. */
  function FourDigits(n: nat): string
    requires n < 10000
  {
    [DigitOf(n / 1000), DigitOf(n / 100 % 10), DigitOf(n / 10 % 10), DigitOf(n % 10)]
  }

  function Value(s: string): nat
    requires forall i :: 0 <= i < |s| ==> IsDigit(s[i])
  {
    if s == "" then 0 else 10 * Value(s[..|s| - 1]) + DigitValue(s[|s| - 1])
  }

  lemma {:induction false} ValueOfDigits(n: nat)
    ensures Value(Digits(n)) == n
  {
    if n >= 10 {
      ValueOfDigits(n / 10);
      assert Digits(n)[..|Digits(n)| - 1] == Digits(n / 10);
    } else {
      assert Digits(n)[..0] == "";
    }
  }

  lemma ValueOfFour(n: nat)
    requires n < 10000
    ensures Value(FourDigits(n)) == n
  {
    var s := FourDigits(n);
    assert s[..3][..2] == s[..2] && s[..2][..1] == s[..1] && s[..1][..0] == "";
    assert Value(s[..1]) == n / 1000;
    assert Value(s[..2]) == 10 * (n / 1000) + n / 100 % 10;
    assert Value(s[..3]) == 10 * Value(s[..2]) + n / 10 % 10;
    assert n / 1000 == n / 100 / 10 && n / 100 == n / 10 / 10;
  }

  /** How many digits a text starts with. */
  function DigitCount(s: string): (k: nat)
    ensures k <= |s| && forall i :: 0 <= i < k ==> IsDigit(s[i])
    ensures k < |s| ==> !IsDigit(s[k])
  {
    if s == "" || !IsDigit(s[0]) then 0 else 1 + DigitCount(s[1..])
  }

  lemma {:induction false} DigitCountIs(ds: string, rest: string)
    requires (forall i :: 0 <= i < |ds| ==> IsDigit(ds[i])) && (rest == "" || !IsDigit(rest[0]))
    ensures DigitCount(ds + rest) == |ds|
  {
    if ds == "" {
      assert ds + rest == rest;
    } else {
      assert (ds + rest)[1..] == ds[1..] + rest;
      DigitCountIs(ds[1..], rest);
    }
  }

  predicate IsSpace(c: char) {
    c == ' ' || '\t' <= c <= '\r'
  }

  function SpaceCount(s: string): (k: nat)
    ensures k <= |s|
  {
    if s == "" || !IsSpace(s[0]) then 0 else 1 + SpaceCount(s[1..])
  }

  /** Reads a number the way strtoll does: leading space, a sign, digits. The
      second part is where reading stopped, the start if there was no number. */
  function ParseInt(s: string): (r: (int, nat))
    ensures r.1 <= |s|
  {
    var b := SpaceCount(s);
    var neg := b < |s| && s[b] == '-';
    var d := if b < |s| && (s[b] == '-' || s[b] == '+') then b + 1 else b;
    var k := DigitCount(s[d..]);
    if k == 0 then (0, 0)
    else
      var n: int := Value(s[d..][..k]);
      (if neg then -n else n, d + k)
  }

  lemma ParseDigits(ds: string, rest: string)
    requires ds != "" && (forall i :: 0 <= i < |ds| ==> IsDigit(ds[i])) && (rest == "" || !IsDigit(rest[0]))
    ensures ParseInt(ds + rest).0 == Value(ds) && ParseInt(ds + rest).1 == |ds|
  {
    var s := ds + rest;
    assert IsDigit(ds[0]) && s[0] == ds[0];
    assert SpaceCount(s) == 0;
    assert s[0..] == s;
    DigitCountIs(ds, rest);
    Dropped(ds, rest);
  }

  lemma ParseNegative(ds: string, rest: string)
    requires ds != "" && (forall i :: 0 <= i < |ds| ==> IsDigit(ds[i])) && (rest == "" || !IsDigit(rest[0]))
    ensures ParseInt("-" + ds + rest).0 == 0 - Value(ds) && ParseInt("-" + ds + rest).1 == 1 + |ds|
  {
    var s := "-" + ds + rest;
    assert s[0] == '-' && SpaceCount(s) == 0;
    Dropped("-", ds + rest);
    Regroup("-", ds, rest);
    DigitCountIs(ds, rest);
    Dropped(ds, rest);
  }

  lemma ParseDecimal(n: int, rest: string)
    requires rest == "" || !IsDigit(rest[0])
    ensures ParseInt(Decimal(n) + rest) == (n, |Decimal(n)|)
  {
    if n >= 0 {
      ParseDigits(Digits(n), rest);
      ValueOfDigits(n);
    } else {
      ParseNegative(Digits(-n), rest);
      ValueOfDigits(-n);
    }
  }

  lemma {:induction false} DigitsGrow(m: nat, n: nat)
    requires m <= n
    ensures |Digits(m)| <= |Digits(n)|
  {
    if m >= 10 {
      DigitsGrow(m / 10, n / 10);
    }
  }

  lemma {:induction false} FewDigits(n: nat)
    ensures |Digits(n)| <= n + 1
    ensures n >= 10 ==> |Digits(n)| < n && 2 * |Digits(n)| < n
  {
    if n >= 100 {
      FewDigits(n / 10);
    } else if n >= 10 {
      assert |Digits(n / 10)| == 1;
    }
  }

  // ------------------------------------------------------------------------- fields

  /** The fields a record may have. */
  datatype Key =
    | Version | Inode | Operation | Timestamp | Namespace | Parent | Subname | HashCode | Link
    | FileMode | Btime | Atime | Ctime | Mtime | Uid | Gid | Size | SpaceEnd | IncAlloc | SrcInode
    | SrcParent | SrcSubname | Flags | XattrName | XattrValue
    | Other(text: string)

  function NameOf(key: Key): string {
    match key
    case Version => "dv"
    case Inode => "id"
    case Operation => "op"
    case Timestamp => "ts"
    case Namespace => "ns"
    case Parent => "pt"
    case Subname => "nm"
    case HashCode => "hc"
    case Link => "ln"
    case FileMode => "md"
    case Btime => "bt"
    case Atime => "at"
    case Ctime => "ct"
    case Mtime => "mt"
    case Uid => "ui"
    case Gid => "gi"
    case Size => "sz"
    case SpaceEnd => "se"
    case IncAlloc => "ia"
    case SrcInode => "si"
    case SrcParent => "sp"
    case SrcSubname => "sn"
    case Flags => "fl"
    case XattrName => "xn"
    case XattrValue => "xv"
    case Other(text) => text
  }

  /** Two letters as one number. */
  function Index(a: char, b: char): int {
    a as int * 256 + b as int
  }

  function KeyOf(name: string): Key {
    if |name| != 2 then Other(name)
    else
      var i := Index(name[0], name[1]);
      if i == Index('d', 'v') then Version
      else if i == Index('i', 'd') then Inode
      else if i == Index('o', 'p') then Operation
      else if i == Index('t', 's') then Timestamp
      else if i == Index('n', 's') then Namespace
      else if i == Index('p', 't') then Parent
      else if i == Index('n', 'm') then Subname
      else if i == Index('h', 'c') then HashCode
      else if i == Index('l', 'n') then Link
      else if i == Index('m', 'd') then FileMode
      else if i == Index('b', 't') then Btime
      else if i == Index('a', 't') then Atime
      else if i == Index('c', 't') then Ctime
      else if i == Index('m', 't') then Mtime
      else if i == Index('u', 'i') then Uid
      else if i == Index('g', 'i') then Gid
      else if i == Index('s', 'z') then Size
      else if i == Index('s', 'e') then SpaceEnd
      else if i == Index('i', 'a') then IncAlloc
      else if i == Index('s', 'i') then SrcInode
      else if i == Index('s', 'p') then SrcParent
      else if i == Index('s', 'n') then SrcSubname
      else if i == Index('f', 'l') then Flags
      else if i == Index('x', 'n') then XattrName
      else if i == Index('x', 'v') then XattrValue
      else Other(name)
  }

  lemma FirstNames(key: Key)
    requires key in {Version, Inode, Operation, Timestamp, Namespace, Parent, Subname, HashCode, Link}
    ensures KeyOf(NameOf(key)) == key && |NameOf(key)| == 2
  {
  }

  lemma MiddleNames(key: Key)
    requires key in {FileMode, Btime, Atime, Ctime, Mtime, Uid, Gid, Size}
    ensures KeyOf(NameOf(key)) == key && |NameOf(key)| == 2
  {
  }

  lemma LastNames(key: Key)
    requires key in {SpaceEnd, IncAlloc, SrcInode, SrcParent, SrcSubname, Flags, XattrName, XattrValue}
    ensures KeyOf(NameOf(key)) == key && |NameOf(key)| == 2
  {
  }

  lemma NameRoundTrip(key: Key)
    requires !key.Other?
    ensures KeyOf(NameOf(key)) == key && |NameOf(key)| == 2
  {
    if key in {Version, Inode, Operation, Timestamp, Namespace, Parent, Subname, HashCode, Link} {
      FirstNames(key);
    } else if key in {FileMode, Btime, Atime, Ctime, Mtime, Uid, Gid, Size} {
      MiddleNames(key);
    } else {
      LastNames(key);
    }
  }

  datatype Field = Number(key: Key, n: int) | Text(key: Key, value: string)

  /** The length written in front of a string. When escaping adds a digit to
      the length, the number of digits is written in place of the length. */
  function WrittenLength(value: string): nat {
    var plain, escaped := |value|, |Escape(value)|;
    if escaped == plain then plain
    else if |Digits(escaped)| == |Digits(plain)| then escaped
    else |Digits(escaped)|
  }

  function EncodeField(f: Field): string {
    " " + NameOf(f.key) + "=" +
    match f
    case Number(_, n) => Decimal(n)
    case Text(_, value) => Decimal(WrittenLength(value)) + "," + Escape(value)
  }

  const END_TAG := "/rec>\n"

  datatype Next = End | Bad | Got(field: Field, rest: string)

  /** What the character after a number makes of it: a comma starts a string
      of that length, a space or the end tag ends a number. */
  function AfterNumber(key: Key, n: int, after: string): (r: Next)
    ensures r.Got? ==> |r.rest| <= |after|
  {
    if after == "" then Bad
    else if after[0] == ',' then
      if n < 0 || |after| - 1 - n < |END_TAG| then Bad
      else Got(Text(key, Unescaped(after[1..][..n])), after[1..][n..])
    else if after[0] == ' ' || (after[0] == '/' && |after| == |END_TAG|) then Got(Number(key, n), after)
    else Bad
  }

  /** The next field of what is left of a record, its end tag included. */
  function NextField(t: string): (r: Next)
    ensures r.Got? ==> |r.rest| < |t|
  {
    if t == "" then Bad
    else if t[0] == '/' then if |t| == |END_TAG| then End else Bad
    else if t[0] != ' ' || |t| - 1 < |END_TAG| + 4 || t[3] != '=' then Bad
    else
      var (n, k) := ParseInt(t[4..]);
      AfterNumber(KeyOf(t[1..3]), n, t[4..][k..])
  }

  /** The length survives the escaping of the value. */
  predicate Fits(value: string) {
    |Digits(|Escape(value)|)| == |Digits(|value|)|
  }

  ghost predicate Tail(t: string) {
    |t| >= |END_TAG| && (t[0] == ' ' || t == END_TAG)
  }

  lemma Dropped(a: string, b: string)
    ensures (a + b)[|a|..] == b && (a + b)[..|a|] == a
  {
  }

  lemma Regroup(a: string, b: string, c: string)
    ensures (a + b) + c == a + (b + c)
  {
  }

  lemma FieldHead(name: string, body: string)
    requires |name| == 2
    ensures var t := (" " + name + "=") + body; |t| == 4 + |body| && t[0] == ' ' && t[1..3] == name && t[3] == '=' && t[4..] == body
  {
  }

  lemma FieldStep(key: Key, n: int, after: string)
    requires !key.Other? && (after == "" || !IsDigit(after[0])) && |Decimal(n)| + |after| >= |END_TAG| + 1
    ensures NextField((" " + NameOf(key) + "=") + (Decimal(n) + after)) == AfterNumber(key, n, after)
  {
    NameRoundTrip(key);
    FieldHead(NameOf(key), Decimal(n) + after);
    ParseDecimal(n, after);
    Dropped(Decimal(n), after);
  }

  lemma NumberReads(key: Key, n: int, rest: string)
    requires !key.Other? && Tail(rest)
    ensures NextField(EncodeField(Number(key, n)) + rest) == Got(Number(key, n), rest)
  {
    Regroup(" " + NameOf(key) + "=", Decimal(n), rest);
    FieldStep(key, n, rest);
  }

  lemma TextParts(key: Key, value: string, rest: string)
    requires !key.Other?
    ensures var t := EncodeField(Text(key, value)) + rest;
      var len := Decimal(WrittenLength(value));
      && t == (" " + NameOf(key) + "=") + (len + ("," + (Escape(value) + rest)))
  {
    var len, text := Decimal(WrittenLength(value)), Escape(value);
    Regroup(" " + NameOf(key) + "=", len + "," + text, rest);
    Regroup(len + ",", text, rest);
    Regroup(len, ",", text + rest);
  }

  lemma TextAfter(key: Key, n: nat, text: string, rest: string)
    requires n <= |text| && |rest| >= |END_TAG|
    ensures AfterNumber(key, n, "," + (text + rest)) == Got(Text(key, Unescaped(text[..n])), text[n..] + rest)
  {
    Dropped(",", text + rest);
    assert (text + rest)[..n] == text[..n] && (text + rest)[n..] == text[n..] + rest;
  }

  lemma TextNext(key: Key, value: string, rest: string)
    requires !key.Other? && Tail(rest)
    ensures var n := WrittenLength(value);
      n <= |Escape(value)| &&
      NextField(EncodeField(Text(key, value)) + rest) ==
        Got(Text(key, Unescaped(Escape(value)[..n])), Escape(value)[n..] + rest)
  {
    TextParts(key, value, rest);
    FieldStep(key, WrittenLength(value), "," + (Escape(value) + rest));
    WrittenFits(value);
    TextAfter(key, WrittenLength(value), Escape(value), rest);
  }

  lemma WrittenFits(value: string)
    ensures WrittenLength(value) <= |Escape(value)|
    ensures Fits(value) ==> WrittenLength(value) == |Escape(value)|
  {
    EscapeLength(value);
    if !Fits(value) {
      LostLength(value);
    }
  }

  /** A string field is read back exactly when its length survives escaping. */
  lemma TextReads(key: Key, value: string, rest: string)
    requires !key.Other? && Tail(rest)
    ensures NextField(EncodeField(Text(key, value)) + rest) == Got(Text(key, value), rest) <==> Fits(value)
  {
    var n, text := WrittenLength(value), Escape(value);
    TextNext(key, value, rest);
    WrittenFits(value);
    if Fits(value) {
      assert text[..n] == text && text[n..] + rest == rest;
      UnescapedEscape(value);
    } else {
      LostLength(value);
      UnescapeLength(text[..n]);
    }
  }

  /** When the length is lost, what is written in its place is too short for
      the value. */
  lemma LostLength(value: string)
    requires !Fits(value)
    ensures WrittenLength(value) < |value| && WrittenLength(value) <= |Escape(value)|
  {
    EscapeLength(value);
    DigitsGrow(|value|, |Escape(value)|);
    FewDigits(|Escape(value)|);
  }
}
