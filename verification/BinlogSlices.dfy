/**
 A binlog file is its records' lines, one after the other. In any slice of it,
 wherever the slice starts and ends, the scans find exactly the records that lie
 wholly inside.
 */
module BinlogSlices {
  import opened Wrappers
  import opened Record
  import opened BinlogText
  import opened BinlogPack
  import opened BinlogScan
  import D = Dentry

  /** The text of a record: long enough, not too long, without a tag or a line end. */
  ghost predicate GoodText(text: string) {
    MIN_SIZE <= |text| + 14 && |text| + 10 <= MAX_SIZE && '<' !in text && '\n' !in text
  }

  /** A record of a file: its fields as text, and the version they start with. */
  datatype Rec = Rec(version: int, text: string)

  ghost predicate VersionOk(rec: Rec) {
    FirstField(rec.text + END_TAG) == (D.Success, rec.version)
  }

  ghost predicate Versioned(recs: seq<Rec>) {
    forall i {:trigger VersionOk(recs[i])} :: 0 <= i < |recs| ==> VersionOk(recs[i])
  }

  ghost predicate GoodTexts(recs: seq<Rec>) {
    forall i {:trigger GoodText(recs[i].text)} :: 0 <= i < |recs| ==> GoodText(recs[i].text)
  }

  ghost function Line(text: string): string
    requires GoodText(text)
  {
    FourDigits(|text| + 10) + (START_TAG + text + END_TAG)
  }

  /** The bytes of a file. */
  ghost function Lines(recs: seq<Rec>): string
    requires GoodTexts(recs)
  {
    if recs == [] then "" else Lines(recs[..|recs| - 1]) + Line(recs[|recs| - 1].text)
  }

  /** Where record k of a file starts; the file size for its end. */
  ghost function Off(recs: seq<Rec>, k: nat): nat
    requires k <= |recs|
  {
    if k == 0 then 0 else Off(recs, k - 1) + |recs[k - 1].text| + 14
  }

  // ------------------------------------------------------------------------- layout

  lemma LineSize(text: string)
    requires GoodText(text)
    ensures MIN_SIZE <= |Line(text)| == |text| + 14 <= MAX_SIZE + SIZE_LENGTH
  {
  }

  lemma {:induction false} OffFront(recs: seq<Rec>, m: nat, k: nat)
    requires k <= m <= |recs|
    ensures Off(recs[..m], k) == Off(recs, k)
  {
    if k > 0 {
      OffFront(recs, m, k - 1);
    }
  }

  lemma {:induction false} OffEnd(recs: seq<Rec>)
    requires GoodTexts(recs)
    ensures Off(recs, |recs|) == |Lines(recs)|
  {
    if recs != [] {
      var last := |recs| - 1;
      OffEnd(recs[..last]);
      OffFront(recs, last, last);
      LineSize(recs[last].text);
    }
  }

  lemma {:induction false} OffGrows(recs: seq<Rec>, i: nat, j: nat)
    requires GoodTexts(recs) && i < j <= |recs|
    ensures Off(recs, i) + MIN_SIZE <= Off(recs, j)
  {
    assert GoodText(recs[j - 1].text);
    if i + 1 < j {
      OffGrows(recs, i, j - 1);
    }
  }

  lemma OffMonotone(recs: seq<Rec>, i: nat, j: nat)
    requires GoodTexts(recs) && i <= j <= |recs|
    ensures Off(recs, i) <= Off(recs, j)
  {
    if i < j {
      OffGrows(recs, i, j);
    }
  }

  lemma {:induction false} LinesTake(recs: seq<Rec>, k: nat)
    requires GoodTexts(recs) && k <= |recs|
    ensures GoodTexts(recs[..k]) && |Lines(recs[..k])| == Off(recs, k) <= |Lines(recs)|
    ensures Lines(recs)[..Off(recs, k)] == Lines(recs[..k])
  {
    OffEnd(recs[..k]);
    OffFront(recs, k, k);
    if k == |recs| {
      assert recs[..k] == recs;
    } else {
      var front := recs[..|recs| - 1];
      LinesTake(front, k);
      assert front[..k] == recs[..k];
    }
  }

  lemma LinesSnoc(recs: seq<Rec>, i: nat)
    requires GoodTexts(recs) && i < |recs|
    ensures Lines(recs[..i + 1]) == Lines(recs[..i]) + Line(recs[i].text)
  {
    assert recs[..i + 1][..i] == recs[..i];
  }

  lemma Between(file: string, a: nat, b: nat, left: string, middle: string)
    requires a <= b <= |file| && file[..b] == left + middle && |left| == a
    ensures file[a..b] == middle
  {
    assert file[a..b] == file[..b][a..];
  }

  lemma TakeIs(recs: seq<Rec>, file: string, k: nat, off: nat)
    requires GoodTexts(recs) && file == Lines(recs) && k <= |recs| && off == Off(recs, k)
    ensures GoodTexts(recs[..k]) && off <= |file| && file[..off] == Lines(recs[..k])
  {
    LinesTake(recs, k);
  }

  lemma LineAt(recs: seq<Rec>, file: string, i: nat, start: nat, end: nat)
    requires GoodTexts(recs) && file == Lines(recs) && i < |recs| && start == Off(recs, i) && end == start + |recs[i].text| + 14
    ensures end <= |file| && file[start..end] == Line(recs[i].text)
  {
    TakeIs(recs, file, i, start);
    TakeIs(recs, file, i + 1, end);
    LinesSnoc(recs, i);
    Between(file, start, end, file[..start], Line(recs[i].text));
  }

  lemma LinesLast(recs: seq<Rec>, front: seq<Rec>, last: Rec)
    requires GoodTexts(recs) && recs == front + [last]
    ensures GoodTexts(front) && GoodText(last.text) && Lines(recs) == Lines(front) + Line(last.text)
  {
    assert recs[..|recs| - 1] == front && recs[|recs| - 1] == last;
    assert forall i :: 0 <= i < |front| ==> front[i] == recs[i];
  }

  lemma GoodJoin(recs: seq<Rec>, more: seq<Rec>)
    requires GoodTexts(recs) && GoodTexts(more)
    ensures GoodTexts(recs + more)
  {
  }

  lemma {:induction false} LinesJoin(recs: seq<Rec>, more: seq<Rec>)
    requires GoodTexts(recs) && GoodTexts(more)
    ensures GoodTexts(recs + more) && Lines(recs + more) == Lines(recs) + Lines(more)
    decreases |more|
  {
    GoodJoin(recs, more);
    if more == [] {
      assert recs + more == recs;
    } else {
      var front, last := more[..|more| - 1], more[|more| - 1];
      LinesLast(more, front, last);
      LinesJoin(recs, front);
      assert recs + more == (recs + front) + [last];
      LinesLast(recs + more, recs + front, last);
      Regroup(Lines(recs), Lines(front), Line(last.text));
    }
  }

  lemma TakeMore(recs: seq<Rec>, i: nat, j: nat)
    requires GoodTexts(recs) && i <= j <= |recs|
    ensures Lines(recs[..j]) == Lines(recs[..i]) + Lines(recs[i..j])
  {
    assert recs[..i] + recs[i..j] == recs[..j];
    LinesJoin(recs[..i], recs[i..j]);
  }

  /** The records from i to j are the bytes between their offsets. */
  lemma LinesBetween(recs: seq<Rec>, file: string, i: nat, j: nat, a: nat, b: nat)
    requires GoodTexts(recs) && file == Lines(recs) && i <= j <= |recs| && a == Off(recs, i) && b == Off(recs, j)
    ensures a <= b <= |file| && file[a..b] == Lines(recs[i..j])
  {
    OffMonotone(recs, i, j);
    LinesTake(recs, i);
    LinesTake(recs, j);
    TakeMore(recs, i, j);
    Between(file, a, b, Lines(recs[..i]), Lines(recs[i..j]));
  }

  // ------------------------------------------------------------------------ positions

  /** The first record that starts at a or later. */
  ghost function StartAfter(recs: seq<Rec>, a: nat): (k: nat)
    requires GoodTexts(recs)
    ensures k <= |recs| && (k < |recs| ==> Off(recs, k) >= a) && forall i :: 0 <= i < k ==> Off(recs, i) < a
  {
    StartFrom(recs, a, 0)
  }

  ghost function StartFrom(recs: seq<Rec>, a: nat, k: nat): (r: nat)
    requires GoodTexts(recs) && k <= |recs| && forall i :: 0 <= i < k ==> Off(recs, i) < a
    ensures k <= r <= |recs| && (r < |recs| ==> Off(recs, r) >= a) && forall i :: 0 <= i < r ==> Off(recs, i) < a
    decreases |recs| - k
  {
    if k == |recs| || Off(recs, k) >= a then k else StartFrom(recs, a, k + 1)
  }

  /** How many records end at b or earlier. */
  ghost function EndBefore(recs: seq<Rec>, b: nat): (m: nat)
    requires GoodTexts(recs)
    ensures m <= |recs| && Off(recs, m) <= b
    ensures m < |recs| ==> Off(recs, m + 1) > b
  {
    EndFrom(recs, b, 0)
  }

  ghost function EndFrom(recs: seq<Rec>, b: nat, m: nat): (r: nat)
    requires GoodTexts(recs) && m <= |recs| && Off(recs, m) <= b
    ensures m <= r <= |recs| && Off(recs, r) <= b && (r < |recs| ==> Off(recs, r + 1) > b)
    decreases |recs| - m
  {
    if m == |recs| || Off(recs, m + 1) > b then m else EndFrom(recs, b, m + 1)
  }

  /** Record i lies wholly in the slice from a to b. */
  ghost predicate Inside(recs: seq<Rec>, a: nat, b: nat, i: nat)
    requires GoodTexts(recs)
  {
    i < |recs| && a <= Off(recs, i) && Off(recs, i + 1) <= b
  }

  lemma StartsAfter(recs: seq<Rec>, a: nat, i: nat)
    requires GoodTexts(recs) && i < |recs|
    ensures a <= Off(recs, i) <==> StartAfter(recs, a) <= i
  {
    if StartAfter(recs, a) <= i {
      OffMonotone(recs, StartAfter(recs, a), i);
    }
  }

  lemma EndsBefore(recs: seq<Rec>, b: nat, i: nat)
    requires GoodTexts(recs) && i < |recs|
    ensures Off(recs, i + 1) <= b <==> i < EndBefore(recs, b)
  {
    var last := EndBefore(recs, b);
    if i < last {
      OffMonotone(recs, i + 1, last);
    } else {
      OffMonotone(recs, last + 1, i + 1);
    }
  }

  /** The records inside a slice are those from StartAfter up to EndBefore. */
  lemma InsideRange(recs: seq<Rec>, a: nat, b: nat, i: nat)
    requires GoodTexts(recs)
    ensures Inside(recs, a, b, i) <==> StartAfter(recs, a) <= i < EndBefore(recs, b)
  {
    if i < |recs| {
      StartsAfter(recs, a, i);
      EndsBefore(recs, b, i);
    }
  }

  // ------------------------------------------------------------- tags of a line

  lemma LineTag(text: string, r: nat)
    requires GoodText(text) && r < |Line(text)|
    ensures |Line(text)| == |text| + 14
    ensures Line(text)[r] == '<' <==> r == 4
    ensures Line(text)[r] == '\n' <==> r == |text| + 13
  {
    var line, head := Line(text), FourDigits(|text| + 10);
    if r < 4 {
      assert line[r] == head[r] && IsDigit(head[r]);
    } else if r < 8 {
      assert line[r] == START_TAG[r - 4];
    } else if r < 8 + |text| {
      assert line[r] == text[r - 8];
    } else {
      assert line[r] == END_TAG[r - 8 - |text|];
    }
  }

  /** Every byte belongs to one record. */
  lemma {:induction false} LineOf(recs: seq<Rec>, m: nat, r: nat) returns (i: nat)
    requires GoodTexts(recs) && m <= |recs| && r < Off(recs, m)
    ensures i < m && Off(recs, i) <= r < Off(recs, i + 1)
  {
    if r < Off(recs, m - 1) {
      i := LineOf(recs, m - 1, r);
    } else {
      i := m - 1;
    }
  }

  lemma TagAt(recs: seq<Rec>, r: nat) returns (i: nat)
    requires GoodTexts(recs) && r < |Lines(recs)| && Lines(recs)[r] == '<'
    ensures i < |recs| && r == Off(recs, i) + 4
  {
    OffEnd(recs);
    i := LineOf(recs, |recs|, r);
    var file, start, end := Lines(recs), Off(recs, i), Off(recs, i + 1);
    LineAt(recs, file, i, start, end);
    assert file[r] == file[start..end][r - start];
    LineTag(recs[i].text, r - start);
  }

  // -------------------------------------------------------------- records in a slice

  lemma LineNumber(n: nat, body: string)
    requires n < 10000 && body != "" && !IsDigit(body[0])
    ensures ParseInt(FourDigits(n) + body).0 == n && ParseInt(FourDigits(n) + body).1 == 4
  {
    ParseDigits(FourDigits(n), body);
    ValueOfFour(n);
  }

  lemma LineSlices(text: string, post: string)
    requires GoodText(text)
    ensures var s := Line(text) + post;
      && |s| >= |text| + 14 && s == FourDigits(|text| + 10) + ((START_TAG + text + END_TAG) + post)
      && s[4..8] == START_TAG && s[4] == '<' && s[|text| + 8..|text| + 14] == END_TAG
      && s[8..|text| + 14] == text + END_TAG
  {
    var n := |text| + 10;
    var body := START_TAG + text + END_TAG;
    var s := Line(text) + post;
    Regroup(FourDigits(n), body, post);
    assert s[4..4 + n] == body;
    assert s[4..8] == body[..4] == START_TAG;
    assert s[8..4 + n] == body[4..] == text + END_TAG;
    assert s[4 + n - 6..4 + n] == body[n - 6..] == END_TAG;
  }

  /** A text that starts with a whole line. */
  ghost predicate Whole(s: string, text: string) {
    |s| >= |text| + 14 && s[4] == '<' && s[8..|text| + 14] == text + END_TAG && Frame(s) == Some(|text| + 14)
  }

  lemma WholeLine(s: string, text: string, post: string)
    requires GoodText(text) && s == Line(text) + post
    ensures Whole(s, text)
  {
    LineSlices(text, post);
    LineNumber(|text| + 10, (START_TAG + text + END_TAG) + post);
  }

  lemma WholeChecks(s: string, text: string, post: string)
    requires GoodText(text) && s == Line(text) + post
    ensures CheckRecord(s) == (D.Success, 8, |text| + 14)
  {
    LineSlices(text, post);
    LineNumber(|text| + 10, (START_TAG + text + END_TAG) + post);
  }

  lemma CutNumber(s: string, text: string, k: nat)
    requires GoodText(text) && MIN_SIZE <= k < |Line(text)| && s == Line(text)[..k]
    ensures ParseInt(s) == (|text| + 10, 4) && s[4..8] == START_TAG
  {
    var n := |text| + 10;
    var head, body := FourDigits(n), START_TAG + text + END_TAG;
    var rest := body[..k - 4];
    assert s == head + rest;
    assert rest[0] == START_TAG[0] && rest[..4] == START_TAG;
    LineNumber(n, rest);
    Dropped(head, rest);
    assert s[4..8] == s[4..][..4];
  }

  /** A line that is cut off is no record. */
  lemma CutLine(s: string, text: string, k: nat)
    requires GoodText(text) && k < |Line(text)| && s == Line(text)[..k]
    ensures Frame(s).None?
  {
    if k >= MIN_SIZE {
      CutNumber(s, text, k);
    }
  }

  lemma CutChecks(s: string, text: string, k: nat)
    requires GoodText(text) && k < |Line(text)| && s == Line(text)[..k]
    ensures CheckRecord(s).0 == if k < MIN_SIZE then D.NoData else D.Overflow
  {
    if k >= MIN_SIZE {
      CutNumber(s, text, k);
    }
  }

  lemma SliceFrom(file: string, a: nat, b: nat, p: nat)
    requires a <= b <= |file| && p <= b - a
    ensures file[a..b][p..] == file[a + p..b]
  {
  }

  /** The bytes from a record's start up to b: the line and more, or a part of it. */
  lemma Cut(file: string, start: nat, end: nat, b: nat)
    requires start <= end <= |file| && start <= b <= |file|
    ensures end <= b ==> file[start..b] == file[start..end] + file[end..b]
    ensures b < end ==> file[start..b] == file[start..end][..b - start]
  {
  }

  /** The bytes from a record's start up to b: its line and more, or a part of it. */
  lemma FromStart(recs: seq<Rec>, file: string, i: nat, start: nat, b: nat, t: string) returns (post: string)
    requires GoodTexts(recs) && file == Lines(recs) && i < |recs| && start == Off(recs, i) <= b <= |file| && t == file[start..b]
    ensures start + |recs[i].text| + 14 <= b ==> t == Line(recs[i].text) + post
    ensures b < start + |recs[i].text| + 14 ==> |t| < |Line(recs[i].text)| && t == Line(recs[i].text)[..|t|]
  {
    var end := start + |recs[i].text| + 14;
    LineAt(recs, file, i, start, end);
    LineSize(recs[i].text);
    Cut(file, start, end, b);
    post := if end <= b then file[end..b] else "";
  }

  /** At a record start there is a record exactly when it is whole. */
  lemma FrameAtStart(recs: seq<Rec>, file: string, i: nat, start: nat, b: nat, t: string)
    requires GoodTexts(recs) && file == Lines(recs) && i < |recs| && start == Off(recs, i) <= b <= |file| && t == file[start..b]
    ensures if start + |recs[i].text| + 14 <= b then Whole(t, recs[i].text) else Frame(t).None?
  {
    var post := FromStart(recs, file, i, start, b, t);
    if start + |recs[i].text| + 14 <= b {
      WholeLine(t, recs[i].text, post);
    } else {
      CutLine(t, recs[i].text, |t|);
    }
  }

  /** The record check accepts a record that is whole. */
  lemma CheckWhole(recs: seq<Rec>, file: string, i: nat, start: nat, b: nat, t: string)
    requires GoodTexts(recs) && file == Lines(recs) && i < |recs| && start == Off(recs, i) <= b <= |file| && t == file[start..b]
    requires start + |recs[i].text| + 14 <= b
    ensures CheckRecord(t) == (D.Success, 8, |recs[i].text| + 14)
  {
    var post := FromStart(recs, file, i, start, b, t);
    WholeChecks(t, recs[i].text, post);
  }

  /** The record check asks for more bytes at a record that is cut off. */
  lemma CheckCut(recs: seq<Rec>, file: string, i: nat, start: nat, b: nat, t: string)
    requires GoodTexts(recs) && file == Lines(recs) && i < |recs| && start == Off(recs, i) <= b <= |file| && t == file[start..b]
    requires b < start + |recs[i].text| + 14
    ensures CheckRecord(t).0 == if |t| < MIN_SIZE then D.NoData else D.Overflow
  {
    var post := FromStart(recs, file, i, start, b, t);
    CutChecks(t, recs[i].text, |t|);
  }

  /** A record that a scan can stop at: where it ends, and its fields. */
  datatype Hit = Hit(end: nat, fields: string)

  ghost function HitAt(s: string, start: nat): Option<Hit> {
    if !IsStart(s, start) then None
    else
      var end := RecordEnd(s, start).value;
      Some(Hit(end, if start + 8 <= end then s[start + 8..end] else ""))
  }

  lemma WholeAt(s: string, start: nat, end: nat, t: string, text: string)
    requires start <= |s| && t == s[start..] && end == start + |text| + 14 && Whole(t, text)
    ensures HitAt(s, start) == Some(Hit(end, text + END_TAG))
  {
    assert s[start + 4] == t[4];
    assert s[start + 8..end] == t[8..end - start];
  }

  lemma InsideIsWhole(recs: seq<Rec>, file: string, a: nat, b: nat, s: string, i: nat, start: nat)
    requires GoodTexts(recs) && file == Lines(recs) && a <= b <= |file| && s == file[a..b]
    requires Inside(recs, a, b, i) && start == Off(recs, i) - a
    ensures start <= |s| && Whole(s[start..], recs[i].text)
  {
    SliceFrom(file, a, b, start);
    FrameAtStart(recs, file, i, a + start, b, s[start..]);
  }

  /** A record inside a slice is found there, with its end and its fields. */
  lemma InsideIsFound(recs: seq<Rec>, file: string, a: nat, b: nat, s: string, i: nat, start: nat, end: nat)
    requires GoodTexts(recs) && file == Lines(recs) && a <= b <= |file| && s == file[a..b]
    requires Inside(recs, a, b, i) && start == Off(recs, i) - a && end == start + |recs[i].text| + 14
    ensures HitAt(s, start) == Some(Hit(end, recs[i].text + END_TAG))
  {
    InsideIsWhole(recs, file, a, b, s, i, start);
    WholeAt(s, start, end, s[start..], recs[i].text);
  }

  lemma StartFramed(s: string, p: nat)
    requires IsStart(s, p)
    ensures p + 4 < |s| && s[p + 4] == '<' && Frame(s[p..]).Some?
  {
  }

  lemma TagIsInside(recs: seq<Rec>, file: string, a: nat, b: nat, p: nat) returns (i: nat)
    requires GoodTexts(recs) && file == Lines(recs) && a <= b <= |file| && p + 4 < b - a
    requires file[a + p + 4] == '<' && Frame(file[a + p..b]).Some?
    ensures Inside(recs, a, b, i) && p == Off(recs, i) - a
  {
    i := TagAt(recs, a + p + 4);
    FrameAtStart(recs, file, i, a + p, b, file[a + p..b]);
  }

  /** A record start of a slice is that of a record inside. */
  lemma StartIsInside(recs: seq<Rec>, file: string, a: nat, b: nat, p: nat) returns (i: nat)
    requires GoodTexts(recs) && file == Lines(recs) && a <= b <= |file| && IsStart(file[a..b], p)
    ensures Inside(recs, a, b, i) && p == Off(recs, i) - a
  {
    StartFramed(file[a..b], p);
    SliceFrom(file, a, b, p);
    i := TagIsInside(recs, file, a, b, p);
  }

  // ------------------------------------------------------------------ scanning a slice

  lemma OffInjective(recs: seq<Rec>, i: nat, j: nat)
    requires GoodTexts(recs) && i <= |recs| && j <= |recs| && Off(recs, i) <= Off(recs, j)
    ensures i <= j
  {
    if j < i {
      OffGrows(recs, j, i);
    }
  }

  /** The starts of the records inside the slice are among these. */
  ghost predicate StartsInside(recs: seq<Rec>, a: nat, b: nat, starts: set<nat>)
    requires GoodTexts(recs)
  {
    forall i {:trigger Inside(recs, a, b, i)} :: Inside(recs, a, b, i) ==> Off(recs, i) - a in starts
  }

  lemma FirstOf(recs: seq<Rec>, a: nat, b: nat, starts: set<nat>, start: nat, j: nat)
    requires GoodTexts(recs) && StartsInside(recs, a, b, starts) && First(starts, start)
    requires Inside(recs, a, b, j) && start == Off(recs, j) - a
    ensures j == StartAfter(recs, a)
  {
    var i := StartAfter(recs, a);
    InsideRange(recs, a, b, j);
    InsideRange(recs, a, b, i);
    OffInjective(recs, j, i);
  }

  lemma LastOf(recs: seq<Rec>, a: nat, b: nat, starts: set<nat>, start: nat, j: nat)
    requires GoodTexts(recs) && StartsInside(recs, a, b, starts) && Last(starts, start)
    requires Inside(recs, a, b, j) && start == Off(recs, j) - a
    ensures j + 1 == EndBefore(recs, b)
  {
    InsideRange(recs, a, b, j);
    var i := EndBefore(recs, b) - 1;
    InsideRange(recs, a, b, i);
    OffInjective(recs, i, j);
  }

  lemma HitStarts(s: string, start: nat, end: nat, fields: string)
    requires HitAt(s, start) == Some(Hit(end, fields))
    ensures start in Starts(s)
  {
  }

  lemma InsideStarts(recs: seq<Rec>, file: string, a: nat, b: nat, s: string, i: nat, start: nat)
    requires GoodTexts(recs) && file == Lines(recs) && a <= b <= |file| && s == file[a..b]
    requires Inside(recs, a, b, i) && start == Off(recs, i) - a
    ensures start in Starts(s)
  {
    var end := start + |recs[i].text| + 14;
    InsideIsFound(recs, file, a, b, s, i, start, end);
    HitStarts(s, start, end, recs[i].text + END_TAG);
  }

  lemma SliceStarts(recs: seq<Rec>, file: string, a: nat, b: nat, s: string, starts: set<nat>)
    requires GoodTexts(recs) && file == Lines(recs) && a <= b <= |file| && s == file[a..b] && starts == Starts(s)
    ensures StartsInside(recs, a, b, starts)
  {
    forall i | Inside(recs, a, b, i)
      ensures Off(recs, i) - a in starts
    {
      InsideStarts(recs, file, a, b, s, i, Off(recs, i) - a);
    }
  }

  /** The record starts of any slice of a file are those of the records that lie
      wholly inside. */
  lemma StartsOfSlice(recs: seq<Rec>, a: nat, b: nat, p: nat)
    requires GoodTexts(recs) && a <= b <= |Lines(recs)|
    ensures p in Starts(Lines(recs)[a..b]) <==> exists i :: Inside(recs, a, b, i) && p == Off(recs, i) - a
  {
    if p in Starts(Lines(recs)[a..b]) {
      var i := StartIsInside(recs, Lines(recs), a, b, p);
    } else if i: nat :| Inside(recs, a, b, i) && p == Off(recs, i) - a {
      InsideStarts(recs, Lines(recs), a, b, Lines(recs)[a..b], i, p);
    }
  }

  /** The answer of a scan that stopped at record i of the slice. */
  ghost predicate Answers(recs: seq<Rec>, a: nat, i: nat, code: D.Code, start: nat, end: nat, version: int)
    requires i < |recs|
  {
    code == D.Success && start == Off(recs, i) - a && end == Off(recs, i + 1) - a && version == recs[i].version
  }

  lemma HitAnswers(s: string, start: nat, end: nat, fields: string, answer: (D.Code, int), hit: nat)
    requires HitAt(s, start) == Some(Hit(hit, fields)) && fields != "" && RecordEnd(s, start) == Some(end)
    requires answer == Head(s, start, end)
    ensures end == hit && answer == FirstField(fields)
  {
  }

  lemma VersionAnswers(recs: seq<Rec>, i: nat, answer: (D.Code, int))
    requires i < |recs| && Versioned(recs) && answer == FirstField(recs[i].text + END_TAG)
    ensures answer == (D.Success, recs[i].version)
  {
    assert VersionOk(recs[i]);
  }

  lemma HereAnswers(recs: seq<Rec>, file: string, a: nat, b: nat, s: string, i: nat, start: nat, end: nat, answer: (D.Code, int))
    requires GoodTexts(recs) && Versioned(recs) && file == Lines(recs) && a <= b <= |file| && s == file[a..b]
    requires Inside(recs, a, b, i) && start == Off(recs, i) - a && RecordEnd(s, start) == Some(end) && answer == Head(s, start, end)
    ensures Answers(recs, a, i, answer.0, start, end, answer.1)
  {
    var hit := start + |recs[i].text| + 14;
    InsideIsFound(recs, file, a, b, s, i, start, hit);
    HitAnswers(s, start, end, recs[i].text + END_TAG, answer, hit);
    VersionAnswers(recs, i, answer);
  }

  lemma NoneInside(recs: seq<Rec>, file: string, a: nat, b: nat, s: string)
    requires GoodTexts(recs) && file == Lines(recs) && a <= b <= |file| && s == file[a..b] && Starts(s) == {}
    ensures forall i :: !Inside(recs, a, b, i)
  {
    SliceStarts(recs, file, a, b, s, {});
  }

  lemma FirstInside(recs: seq<Rec>, file: string, a: nat, b: nat, s: string, start: nat)
    requires GoodTexts(recs) && file == Lines(recs) && a <= b <= |file| && s == file[a..b] && First(Starts(s), start)
    ensures Inside(recs, a, b, StartAfter(recs, a)) && start == Off(recs, StartAfter(recs, a)) - a
  {
    var i := StartIsInside(recs, file, a, b, start);
    SliceStarts(recs, file, a, b, s, Starts(s));
    FirstOf(recs, a, b, Starts(s), start, i);
  }

  lemma LastInside(recs: seq<Rec>, file: string, a: nat, b: nat, s: string, start: nat) returns (i: nat)
    requires GoodTexts(recs) && file == Lines(recs) && a <= b <= |file| && s == file[a..b] && Last(Starts(s), start)
    ensures i + 1 == EndBefore(recs, b) && Inside(recs, a, b, i) && start == Off(recs, i) - a
  {
    i := StartIsInside(recs, file, a, b, start);
    SliceStarts(recs, file, a, b, s, Starts(s));
    LastOf(recs, a, b, Starts(s), start, i);
  }

  /** The forward scan of any slice of a file stops at the first record wholly
      inside, and fails exactly when there is none. */
  method ScanForward(s: string, ghost recs: seq<Rec>, ghost file: string, ghost a: nat, ghost b: nat)
      returns (code: D.Code, start: nat, end: nat, version: int)
    requires GoodTexts(recs) && Versioned(recs) && file == Lines(recs) && a <= b <= |file| && s == file[a..b]
    ensures var i := StartAfter(recs, a);
      if Inside(recs, a, b, i) then Answers(recs, a, i, code, start, end, version)
      else code == D.NoEntry && forall j :: !Inside(recs, a, b, j)
  {
    code, start, end, version := DetectForward(s);
    if Starts(s) == {} {
      NoneInside(recs, file, a, b, s);
    } else {
      FirstInside(recs, file, a, b, s, start);
      ghost var i := StartAfter(recs, a);
      HereAnswers(recs, file, a, b, s, i, start, end, (code, version));
    }
  }

  /** The backward scan of any slice of a file stops at the last record wholly
      inside, and fails exactly when there is none. */
  method ScanReverse(s: string, ghost recs: seq<Rec>, ghost file: string, ghost a: nat, ghost b: nat)
      returns (code: D.Code, start: nat, end: nat, version: int)
    requires GoodTexts(recs) && Versioned(recs) && file == Lines(recs) && a <= b <= |file| && s == file[a..b]
    ensures var m := EndBefore(recs, b);
      if m > 0 && Inside(recs, a, b, m - 1) then Answers(recs, a, m - 1, code, start, end, version)
      else code == (if b - a < MIN_SIZE then D.NoData else D.NoEntry) && forall j :: !Inside(recs, a, b, j)
  {
    code, start, end, version := DetectReverse(s);
    if |s| < MIN_SIZE {
      ShortSlice(recs, a, b);
    } else if Starts(s) == {} {
      NoneInside(recs, file, a, b, s);
    } else {
      ghost var i := LastInside(recs, file, a, b, s, start);
      HereAnswers(recs, file, a, b, s, i, start, end, (code, version));
    }
  }

  lemma ShortSlice(recs: seq<Rec>, a: nat, b: nat)
    requires GoodTexts(recs) && b - a < MIN_SIZE
    ensures forall i :: !Inside(recs, a, b, i)
  {
    if i: nat :| Inside(recs, a, b, i) {
      OffGrows(recs, i, i + 1);
    }
  }

  lemma WholeDetects(t: string, text: string, version: int)
    requires CheckRecord(t) == (D.Success, 8, |text| + 14) && Whole(t, text) && VersionOk(Rec(version, text))
    ensures Detect(t) == (D.Success, |text| + 14, version)
  {
  }

  /** The record check at a record start: the record's end and version when it is
      whole, otherwise that more bytes are needed. */
  lemma DetectAtStart(recs: seq<Rec>, file: string, i: nat, start: nat, b: nat, t: string)
    requires GoodTexts(recs) && Versioned(recs) && file == Lines(recs) && i <= |recs|
    requires start == Off(recs, i) <= b <= |file| && t == file[start..b]
    ensures i < |recs| && Off(recs, i + 1) <= b ==> Detect(t) == (D.Success, |recs[i].text| + 14, recs[i].version)
    ensures i == |recs| || Off(recs, i + 1) > b ==> Detect(t).0 == if b - start < MIN_SIZE then D.NoData else D.Overflow
  {
    if i == |recs| {
      OffEnd(recs);
    } else if start + |recs[i].text| + 14 <= b {
      CheckWhole(recs, file, i, start, b, t);
      FrameAtStart(recs, file, i, start, b, t);
      assert VersionOk(recs[i]) && recs[i] == Rec(recs[i].version, recs[i].text);
      WholeDetects(t, recs[i].text, recs[i].version);
    } else {
      CheckCut(recs, file, i, start, b, t);
    }
  }

  method DetectAt(t: string, ghost recs: seq<Rec>, ghost file: string, ghost i: nat, ghost start: nat, ghost b: nat)
      returns (code: D.Code, end: nat, version: int)
    requires GoodTexts(recs) && Versioned(recs) && file == Lines(recs) && i <= |recs|
    requires start == Off(recs, i) <= b <= |file| && t == file[start..b]
    ensures if i < |recs| && Off(recs, i + 1) <= b then code == D.Success && end == |recs[i].text| + 14 && version == recs[i].version
            else code == if b - start < MIN_SIZE then D.NoData else D.Overflow
  {
    var answer := Detect(t);
    code, end, version := answer.0, answer.1, answer.2;
    DetectAtStart(recs, file, i, start, b, t);
  }

  /** No record starts at a. */
  ghost predicate NoStart(recs: seq<Rec>, a: nat) {
    forall i {:trigger Off(recs, i)} :: 0 <= i <= |recs| ==> Off(recs, i) != a
  }

  // ------------------------------------------------ the record check at any byte position

  lemma EndAt(recs: seq<Rec>, r: nat) returns (j: nat)
    requires GoodTexts(recs) && r < |Lines(recs)| && Lines(recs)[r] == '\n'
    ensures j < |recs| && r + 1 == Off(recs, j + 1)
  {
    OffEnd(recs);
    j := LineOf(recs, |recs|, r);
    var file, start, end := Lines(recs), Off(recs, j), Off(recs, j + 1);
    LineAt(recs, file, j, start, end);
    assert file[r] == file[start..end][r - start];
    LineTag(recs[j].text, r - start);
  }

  /** No record ends strictly inside another. */
  lemma NoEndInside(recs: seq<Rec>, i: nat, j: nat)
    requires GoodTexts(recs) && i < |recs| && j <= |recs|
    ensures Off(recs, j) <= Off(recs, i) || Off(recs, j) == Off(recs, i + 1) || Off(recs, j) >= Off(recs, i + 1) + MIN_SIZE
  {
    if j <= i {
      OffMonotone(recs, j, i);
    } else if j > i + 1 {
      OffGrows(recs, i + 1, j);
    }
  }

  lemma {:induction false} SpacesAre(s: string, p: nat)
    requires p < SpaceCount(s)
    ensures IsSpace(s[p])
  {
    if p > 0 {
      SpacesAre(s[1..], p - 1);
    }
  }

  lemma NumberChars(s: string, p: nat)
    requires p < ParseInt(s).1
    ensures IsSpace(s[p]) || s[p] == '-' || s[p] == '+' || IsDigit(s[p])
  {
    var b := SpaceCount(s);
    var d := if b < |s| && (s[b] == '-' || s[b] == '+') then b + 1 else b;
    if p < b {
      SpacesAre(s, p);
    } else if p >= d {
      assert s[p] == s[d..][p - d];
    }
  }

  lemma NumberStops(s: string, p: nat)
    requires p < |s| && s[p] == '>'
    ensures ParseInt(s).1 <= p
  {
    if p < ParseInt(s).1 {
      NumberChars(s, p);
    }
  }

  lemma ValueOne(a: char)
    requires IsDigit(a)
    ensures Value([a]) == DigitValue(a)
  {
    assert [a][..0] == "";
  }

  lemma ValueTwo(a: char, b: char)
    requires IsDigit(a) && IsDigit(b)
    ensures Value([a, b]) == 10 * DigitValue(a) + DigitValue(b)
  {
    assert [a, b][..1] == [a];
    ValueOne(a);
  }

  lemma ValueThree(a: char, b: char, c: char)
    requires IsDigit(a) && IsDigit(b) && IsDigit(c)
    ensures Value([a, b, c]) == 100 * DigitValue(a) + 10 * DigitValue(b) + DigitValue(c)
  {
    assert [a, b, c][..2] == [a, b];
    ValueTwo(a, b);
  }

  lemma ValueFour(a: char, b: char, c: char, d: char)
    requires IsDigit(a) && IsDigit(b) && IsDigit(c) && IsDigit(d)
    ensures Value([a, b, c, d]) == 1000 * DigitValue(a) + 100 * DigitValue(b) + 10 * DigitValue(c) + DigitValue(d)
  {
    assert [a, b, c, d][..3] == [a, b, c];
    ValueThree(a, b, c);
  }

  /** Four digits that stand for a size. */
  ghost predicate SizeDigits(head: string, n: nat) {
    |head| == 4 && (forall i :: 0 <= i < |head| ==> IsDigit(head[i])) && Value(head) == n
  }

  /** A size that lost its first digits is the size or misses it by at least one
      hundred, or is below ten. */
  lemma LostDigits(head: string, n: nat, k: nat)
    requires SizeDigits(head, n) && 0 < k < 4
    ensures var m := Value(head[4 - k..]); m < 10 || m == n || m + 100 <= n
  {
    var a, b, c, d := head[0], head[1], head[2], head[3];
    assert head == [a, b, c, d];
    ValueFour(a, b, c, d);
    if k == 1 {
      assert head[3..] == [d];
      ValueOne(d);
    } else if k == 2 {
      assert head[2..] == [c, d];
      ValueTwo(c, d);
    } else {
      assert head[1..] == [b, c, d];
      ValueThree(b, c, d);
    }
  }

  lemma NumberThenTag(t: string, k: nat, ds: string)
    requires 0 < k < |t| && t[..k] == ds && (forall i :: 0 <= i < |ds| ==> IsDigit(ds[i])) && t[k] == '<'
    ensures ParseInt(t).0 == Value(ds)
  {
    assert t == ds + t[k..];
    ParseDigits(ds, t[k..]);
  }

  lemma SpaceFirst(space: string, u: string)
    requires |space| == 1 && IsSpace(space[0]) && u != "" && IsDigit(u[0])
    ensures ParseInt(space + u).0 == ParseInt(u).0
  {
    var t := space + u;
    assert t[1..] == u && SpaceCount(u) == 0 && SpaceCount(t) == 1;
    assert u[0..] == u;
  }

  lemma LineHead(text: string, head: string)
    requires GoodText(text) && head == Line(text)[..4]
    ensures SizeDigits(head, |text| + 10)
  {
    var n := |text| + 10;
    assert head == FourDigits(n);
    ValueOfFour(n);
  }

  lemma SubSlice(file: string, start: nat, end: nat, p: nat, q: nat)
    requires start <= end <= |file| && p <= q <= end - start
    ensures file[start..end][p..q] == file[start + p..start + q]
  {
    var x, y := file[start..end][p..q], file[start + p..start + q];
    assert forall i :: 0 <= i < |x| ==> x[i] == y[i];
  }

  /** The bytes of the size of record i. */
  lemma WholeSize(recs: seq<Rec>, file: string, i: nat, start: nat) returns (head: string)
    requires GoodTexts(recs) && file == Lines(recs) && i < |recs| && start == Off(recs, i)
    ensures start + 4 <= |file| && file[start..start + 4] == head && SizeDigits(head, |recs[i].text| + 10)
  {
    LineAt(recs, file, i, start, start + |recs[i].text| + 14);
    head := Line(recs[i].text)[..4];
    LineHead(recs[i].text, head);
    SubSlice(file, start, start + |recs[i].text| + 14, 0, 4);
  }

  lemma TailNumber(file: string, start: nat, head: string, n: nat, k: nat, a: nat, b: nat, t: string)
    requires SizeDigits(head, n) && 0 < k < 4 && start + 4 <= |file| && file[start..start + 4] == head && a + k == start + 4
    requires a + k < b <= |file| && t == file[a..b] && t[k] == '<'
    ensures ParseInt(t).0 == Value(head[4 - k..])
  {
    SubSlice(file, start, start + 4, 4 - k, 4);
    SubSlice(file, a, b, 0, k);
    NumberThenTag(t, k, head[4 - k..]);
  }

  /** The number read from inside the size of record i. */
  lemma InsideSize(recs: seq<Rec>, file: string, i: nat, a: nat, b: nat, t: string, k: nat)
    requires GoodTexts(recs) && file == Lines(recs) && i < |recs| && 0 < k < 4 && a + k == Off(recs, i) + 4
    requires a + k < b <= |file| && t == file[a..b] && t[k] == '<'
    ensures var m, n := ParseInt(t).0, |recs[i].text| + 10; m < 10 || m == n || m + 100 <= n
  {
    var start, n := Off(recs, i), |recs[i].text| + 10;
    var head := WholeSize(recs, file, i, start);
    TailNumber(file, start, head, n, k, a, b, t);
    LostDigits(head, n, k);
  }

  lemma HeadNumber(file: string, start: nat, head: string, n: nat, a: nat, b: nat, t: string)
    requires SizeDigits(head, n) && a + 1 == start && start + 4 < b <= |file| && file[start..start + 4] == head
    requires t == file[a..b] && t[0] == '\n' && t[5] == '<'
    ensures ParseInt(t).0 == n
  {
    var u := t[1..];
    assert u[..4] == file[start..start + 4];
    NumberThenTag(u, 4, head);
    assert t == "\n" + u && u[0] == u[..4][0];
    SpaceFirst("\n", u);
  }

  /** The number read from the line end in front of record i on. */
  lemma BeforeSize(recs: seq<Rec>, file: string, i: nat, a: nat, b: nat, t: string)
    requires GoodTexts(recs) && file == Lines(recs) && i < |recs| && a + 1 == Off(recs, i) && a + 5 < b <= |file|
    requires t == file[a..b] && t[0] == '\n' && t[5] == '<'
    ensures ParseInt(t).0 == |recs[i].text| + 10
  {
    var head := WholeSize(recs, file, i, a + 1);
    HeadNumber(file, a + 1, head, |recs[i].text| + 10, a, b, t);
  }

  /** What an accepted check knows: the tag behind the number and the line end
      that the number leads to. */
  lemma Accepted(t: string)
    requires CheckRecord(t).0 == D.Success
    ensures var (n, k) := ParseInt(t); 60 <= n && n + 4 <= |t| && k < |t| && t[k] == '<' && t[n + 3] == '\n'
  {
    var (n, k) := ParseInt(t);
    assert t[k] == t[k..k + 4][0];
    assert t[n + 3] == t[n - 2..n + 4][5];
  }

  lemma LineEnd(text: string)
    requires GoodText(text)
    ensures |Line(text)| == |text| + 14 && Line(text)[|text| + 12] == '>' && Line(text)[|text| + 13] == '\n'
  {
    assert Line(text)[|text| + 12] == END_TAG[4] && Line(text)[|text| + 13] == END_TAG[5];
  }

  lemma CharAt(file: string, start: nat, end: nat, p: nat)
    requires start + p < end <= |file|
    ensures file[start..end][p] == file[start + p]
  {
  }

  lemma EndOfLine(recs: seq<Rec>, file: string, j: nat, end: nat)
    requires GoodTexts(recs) && file == Lines(recs) && j < |recs| && end == Off(recs, j + 1)
    ensures 2 <= end <= |file| && file[end - 1] == '\n' && file[end - 2] == '>'
  {
    var start, size := Off(recs, j), |recs[j].text|;
    LineAt(recs, file, j, start, end);
    LineEnd(recs[j].text);
    CharAt(file, start, end, size + 12);
    CharAt(file, start, end, size + 13);
  }

  /** The bytes in front of a record start are a line end. */
  lemma BeforeStart(recs: seq<Rec>, file: string, a: nat, b: nat, t: string, j: nat, start: nat)
    requires GoodTexts(recs) && file == Lines(recs) && a < start <= b <= |file| && t == file[a..b]
    requires j < |recs| && start == Off(recs, j + 1)
    ensures t[start - a - 1] == '\n' && (a + 1 < start ==> t[start - a - 2] == '>')
  {
    EndOfLine(recs, file, j, start);
    CharAt(file, a, b, start - a - 1);
    if a + 1 < start {
      CharAt(file, a, b, start - a - 2);
    }
  }

  /** A number that starts in front of record i starts at the line end there, and
      is the size of the record. */
  lemma LongNumber(recs: seq<Rec>, file: string, a: nat, b: nat, t: string, i: nat, j: nat)
    requires GoodTexts(recs) && file == Lines(recs) && i == j + 1 < |recs| && a < Off(recs, i) < Off(recs, i) + 4 < b <= |file|
    requires t == file[a..b] && a + ParseInt(t).1 == Off(recs, i) + 4 && t[Off(recs, i) + 4 - a] == '<'
    ensures a + 1 == Off(recs, i) && ParseInt(t).0 == |recs[i].text| + 10
  {
    var start := Off(recs, i);
    BeforeStart(recs, file, a, b, t, j, start);
    if a + 1 < start {
      NumberStops(t, start - a - 2);
    }
    BeforeSize(recs, file, i, a, b, t);
  }

  /** Where a number, the tag behind it and the line end it leads to agree, the
      number is the whole size of a record. */
  lemma SizesAgree(recs: seq<Rec>, a: nat, n: int, k: nat, i: nat, j: nat)
    requires GoodTexts(recs) && i < |recs| && j < |recs| && a + k == Off(recs, i) + 4 && a + n + 4 == Off(recs, j + 1) && 60 <= n
    requires k < 4 ==> n < 10 || n == |recs[i].text| + 10 || n + 100 <= |recs[i].text| + 10
    requires k > 4 ==> k == 5 && n == |recs[i].text| + 10
    ensures k == 4
  {
    NoEndInside(recs, i, j + 1);
  }

  lemma TagMark(recs: seq<Rec>, file: string, a: nat, b: nat, t: string, k: nat) returns (i: nat)
    requires GoodTexts(recs) && file == Lines(recs) && a <= b <= |file| && t == file[a..b] && k < |t| && t[k] == '<'
    ensures i < |recs| && a + k == Off(recs, i) + 4
  {
    CharAt(file, a, b, k);
    i := TagAt(recs, a + k);
  }

  lemma EndMark(recs: seq<Rec>, file: string, a: nat, b: nat, t: string, p: nat) returns (j: nat)
    requires GoodTexts(recs) && file == Lines(recs) && a <= b <= |file| && t == file[a..b] && p < |t| && t[p] == '\n'
    ensures j < |recs| && a + p + 1 == Off(recs, j + 1)
  {
    CharAt(file, a, b, p);
    j := EndAt(recs, a + p);
  }

  /** The number read in front of the tag of record i. */
  lemma NumberAt(recs: seq<Rec>, file: string, a: nat, b: nat, t: string, i: nat, k: nat)
    requires GoodTexts(recs) && file == Lines(recs) && a <= b <= |file| && t == file[a..b] && i < |recs|
    requires k == ParseInt(t).1 < |t| && t[k] == '<' && a + k == Off(recs, i) + 4
    ensures var n := ParseInt(t).0;
      && (k < 4 ==> n < 10 || n == |recs[i].text| + 10 || n + 100 <= |recs[i].text| + 10)
      && (k > 4 ==> k == 5 && n == |recs[i].text| + 10)
  {
    if 0 < k < 4 {
      InsideSize(recs, file, i, a, b, t, k);
    } else if k > 4 {
      LongNumber(recs, file, a, b, t, i, i - 1);
    }
  }

  /** Whatever byte it starts at, the record check accepts only at a record start. */
  lemma AcceptedIsStart(recs: seq<Rec>, file: string, a: nat, b: nat, t: string) returns (i: nat)
    requires GoodTexts(recs) && file == Lines(recs) && a <= b <= |file| && t == file[a..b] && CheckRecord(t).0 == D.Success
    ensures i < |recs| && a == Off(recs, i)
  {
    Accepted(t);
    var n, k := ParseInt(t).0, ParseInt(t).1;
    i := TagMark(recs, file, a, b, t, k);
    var j := EndMark(recs, file, a, b, t, n + 3);
    NumberAt(recs, file, a, b, t, i, k);
    SizesAgree(recs, a, n, k, i, j);
  }

  /** Where no record starts, nothing is detected. */
  lemma NothingDetected(recs: seq<Rec>, file: string, a: nat, b: nat, t: string)
    requires GoodTexts(recs) && file == Lines(recs) && a <= b <= |file| && t == file[a..b] && NoStart(recs, a)
    ensures Detect(t).0 != D.Success
  {
    if CheckRecord(t).0 == D.Success {
      var i := AcceptedIsStart(recs, file, a, b, t);
    }
  }

  /** The record check anywhere: at a record start as above, elsewhere a failure. */
  method DetectAnywhere(t: string, ghost recs: seq<Rec>, ghost file: string, ghost i: nat, ghost start: nat, ghost b: nat)
      returns (code: D.Code, end: nat, version: int)
    requires GoodTexts(recs) && Versioned(recs) && file == Lines(recs) && start <= b <= |file| && t == file[start..b]
    requires NoStart(recs, start) || (i <= |recs| && start == Off(recs, i))
    ensures NoStart(recs, start) ==> code != D.Success
    ensures !NoStart(recs, start) ==>
      if i < |recs| && Off(recs, i + 1) <= b then code == D.Success && end == |recs[i].text| + 14 && version == recs[i].version
      else code == if b - start < MIN_SIZE then D.NoData else D.Overflow
  {
    var answer := Detect(t);
    code, end, version := answer.0, answer.1, answer.2;
    if NoStart(recs, start) {
      NothingDetected(recs, file, start, b, t);
    } else {
      DetectAtStart(recs, file, i, start, b, t);
    }
  }

  /** From any byte of a file on, the record check accepts exactly at the start of
      a record that is whole. */
  lemma AcceptedExactly(recs: seq<Rec>, file: string, a: nat, b: nat)
    requires GoodTexts(recs) && file == Lines(recs) && a <= b <= |file|
    ensures CheckRecord(file[a..b]).0 == D.Success <==> exists i: nat :: Inside(recs, a, b, i) && a == Off(recs, i)
  {
    var t := file[a..b];
    if CheckRecord(t).0 == D.Success {
      var i := AcceptedIsStart(recs, file, a, b, t);
      if b < Off(recs, i + 1) {
        CheckCut(recs, file, i, a, b, t);
      }
      assert Inside(recs, a, b, i);
    } else if i: nat :| Inside(recs, a, b, i) && a == Off(recs, i) {
      CheckWhole(recs, file, i, a, b, t);
    }
  }

  // ------------------------------------------------------------ packed records are lines

  lemma FieldPlain(f: Field)
    requires !f.key.Other?
    ensures '<' !in EncodeField(f) && '\n' !in EncodeField(f)
  {
    NamePlain(f.key);
    match f
    case Number(_, n) =>
    case Text(_, value) => EscapePlain(value);
  }

  lemma NamePlain(key: Key)
    requires !key.Other?
    ensures '<' !in NameOf(key) && '\n' !in NameOf(key)
  {
  }

  /** No field of the list has an unknown name. */
  ghost predicate AllKnown(fields: seq<Field>) {
    forall i :: 0 <= i < |fields| ==> !fields[i].key.Other?
  }

  lemma {:induction false} EncodePlain(fields: seq<Field>)
    requires AllKnown(fields)
    ensures '<' !in Encode(fields) && '\n' !in Encode(fields)
  {
    if fields != [] {
      FieldPlain(fields[0]);
      EncodePlain(fields[1..]);
    }
  }

  lemma {:induction false} SelectKnown(choices: seq<(bool, Field)>)
    requires forall i :: 0 <= i < |choices| ==> !choices[i].1.key.Other?
    ensures AllKnown(Select(choices))
  {
    if choices != [] {
      SelectKnown(choices[1..]);
    }
  }

  lemma FieldsKnown(rec: Record)
    ensures AllKnown(FieldsOf(rec))
  {
    var o, s := rec.options, rec.stat;
    SelectKnown([(o.link, Text(Link, rec.link))]);
    SelectKnown([(o.mode, Number(FileMode, ModeBits(s.mode))), (o.btime, Number(Btime, s.atime)), (o.atime, Number(Atime, s.atime)),
                 (o.ctime, Number(Ctime, s.ctime)), (o.mtime, Number(Mtime, s.mtime))]);
    SelectKnown([(o.uid, Number(Uid, s.uid)), (o.gid, Number(Gid, s.gid)), (o.size, Number(Size, s.size)),
                 (o.spaceEnd, Number(SpaceEnd, s.spaceEnd)), (o.incAlloc, Number(IncAlloc, s.alloc))]);
    SelectKnown([(o.srcInode, Number(SrcInode, rec.srcInode))]);
  }

  lemma EncodedVersion(fields: seq<Field>, version: int)
    requires fields != [] && fields[0] == Number(Version, version)
    ensures FirstField(Encode(fields) + END_TAG) == (D.Success, version)
  {
    Regroup(EncodeField(fields[0]), Encode(fields[1..]), END_TAG);
    EncodeTail(fields[1..]);
    FieldReads(fields[0], Encode(fields[1..]) + END_TAG);
  }

  lemma PackedText(rec: Record, text: string)
    requires text == Encode(FieldsOf(rec)) && MIN_SIZE <= |text| + 14 && |text| + 10 <= MAX_SIZE
    ensures GoodText(text)
  {
    FieldsKnown(rec);
    EncodePlain(FieldsOf(rec));
  }

  /** A packed record, whatever its strings, is a line. */
  lemma PackedIsLine(rec: Record, text: string)
    requires Pack(rec).0 == D.Success && |Body(rec)| >= MIN_SIZE - SIZE_LENGTH && text == Encode(FieldsOf(rec))
    ensures GoodText(text) && Pack(rec).1 == Line(text)
  {
    PackShape(rec);
    PackedText(rec, text);
  }

  /** The fields of a packed record start with its data version. */
  lemma PackedVersion(rec: Record)
    ensures VersionOk(Rec(rec.version, Encode(FieldsOf(rec))))
  {
    FieldsStart(rec);
    EncodedVersion(FieldsOf(rec), rec.version);
  }
}
