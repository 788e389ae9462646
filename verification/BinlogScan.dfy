/**
 Finding records in a piece of a binlog file that may start and end in the
 middle of a record.
 */
module BinlogScan {
  import opened Wrappers
  import opened Record
  import opened BinlogText
  import opened BinlogPack
  import D = Dentry

  // ---------------------------------------------------------------------- a record start

  /** The length of the record that a text starts with, if it does. */
  function Frame(t: string): (r: Option<nat>)
    ensures r.Some? ==> |t| >= MIN_SIZE && 0 < r.value <= |t|
  {
    if |t| < MIN_SIZE then None
    else
      var (n, k) := ParseInt(t);
      if k != SIZE_LENGTH || n > |t| - SIZE_LENGTH || n + SIZE_LENGTH < |END_TAG| then None
      else if t[SIZE_LENGTH..SIZE_LENGTH + |START_TAG|] != START_TAG then None
      else if t[SIZE_LENGTH + n - |END_TAG|..SIZE_LENGTH + n] != END_TAG then None
      else Some(SIZE_LENGTH + n)
  }

  /** Where the record that starts at a ends, if one does. */
  function RecordEnd(s: string, a: nat): (r: Option<nat>)
    requires a <= |s|
    ensures r.Some? ==> a < r.value <= |s|
  {
    match Frame(s[a..])
    case Some(n) => Some(a + n)
    case None => None
  }

  predicate IsStart(s: string, a: nat) {
    a + SIZE_LENGTH < |s| && s[a + SIZE_LENGTH] == '<' && RecordEnd(s, a).Some?
  }

  /** The version that the fields of a record must start with. */
  function FirstField(t: string): (D.Code, int) {
    match NextField(t)
    case End => (D.NoEntry, 0)
    case Bad => (D.Invalid, 0)
    case Got(f, _) => if f.key == Version && f.Number? then (D.Success, f.n) else (D.Invalid, 0)
  }

  /** What is returned for a record: its version, if it starts with one. */
  function Head(s: string, start: nat, end: nat): (D.Code, int) {
    if start + 8 <= end <= |s| then FirstField(s[start + 8..end]) else (D.Invalid, 0)
  }

  /** The check of the record that a text starts with: where it ends and its
      version. */
  function Detect(s: string): (D.Code, nat, int) {
    var (code, start, end) := CheckRecord(s);
    if code != D.Success || !(start <= end <= |s|) then (code, 0, 0)
    else
      var (result, version) := FirstField(s[start..end]);
      if result != D.Success then (result, 0, 0) else (D.Success, end, version)
  }

  // -------------------------------------------------------------------------- scanning

  /** All record starts of a text. */
  ghost function Starts(s: string): set<nat> {
    set a: nat | a < |s| && IsStart(s, a)
  }

  /** What the scans rely on: a tag in front of each start's letters and no tag
      among its digits. */
  ghost predicate Tagged(s: string, starts: set<nat>) {
    forall a :: a in starts ==>
      && a + MIN_SIZE <= |s| && s[a + 4] == '<' && s[a + 5] == 'r'
      && s[a] != '<' && s[a + 1] != '<' && s[a + 2] != '<' && s[a + 3] != '<'
  }

  ghost predicate First(starts: set<nat>, start: nat) {
    start in starts && forall a :: a in starts ==> start <= a
  }

  ghost predicate Last(starts: set<nat>, start: nat) {
    start in starts && forall a :: a in starts ==> a <= start
  }

  ghost predicate NoTag(s: string, p: int, r: int) {
    0 <= p <= r <= |s| && forall i :: p <= i < r ==> s[i] != '<'
  }

  /** The position of the first tag character from p on. */
  method NextTag(s: string, p: nat) returns (r: nat)
    requires p <= |s|
    ensures NoTag(s, p, r) && (r < |s| ==> s[r] == '<')
  {
    r := p;
    while r < |s| && s[r] != '<'
      invariant NoTag(s, p, r)
    {
      r := r + 1;
    }
  }

  /** The position of the last tag character in front of l, plus one. */
  method PreviousTag(s: string, l: nat) returns (r: nat)
    requires l <= |s|
    ensures NoTag(s, r, l) && (r > 0 ==> s[r - 1] == '<')
  {
    r := l;
    while r > 0 && s[r - 1] != '<'
      invariant NoTag(s, r, l)
    {
      r := r - 1;
    }
  }

  lemma StartsTagged(s: string)
    ensures Tagged(s, Starts(s))
  {
    forall a | a in Starts(s)
      ensures a + MIN_SIZE <= |s| && s[a + 4] == '<' && s[a + 5] == 'r'
      ensures s[a] != '<' && s[a + 1] != '<' && s[a + 2] != '<' && s[a + 3] != '<'
    {
      StartTagged(s, a);
    }
  }

  lemma StartTagged(s: string, a: nat)
    requires IsStart(s, a)
    ensures a + MIN_SIZE <= |s| && s[a + 4] == '<' && s[a + 5] == 'r'
    ensures s[a] != '<' && s[a + 1] != '<' && s[a + 2] != '<' && s[a + 3] != '<'
  {
    StartHoldsDigits(s, a);
    StartGoesOn(s, a);
  }

  lemma SkipForward(s: string, starts: set<nat>, p: nat, r: nat)
    requires Tagged(s, starts) && (forall a :: a in starts ==> p <= a) && NoTag(s, p, r) && r < |s| && s[r] == '<'
    requires r >= 4 ==> r - 4 !in starts
    ensures forall a :: a in starts ==> r + 1 <= a
  {
    forall a | a in starts
      ensures r + 1 <= a
    {
      assert s[a + 4] == '<';
      assert a + 4 != r;
    }
  }

  lemma FoundForward(s: string, starts: set<nat>, p: nat, r: nat)
    requires Tagged(s, starts) && (forall a :: a in starts ==> p <= a) && NoTag(s, p, r) && 4 <= r && r - 4 in starts
    ensures First(starts, r - 4)
  {
    forall a | a in starts
      ensures r - 4 <= a
    {
      assert s[a + 4] == '<';
    }
  }

  lemma NothingLeft(s: string, starts: set<nat>, p: nat)
    requires Tagged(s, starts) && (forall a :: a in starts ==> p <= a) && (|s| - p < MIN_SIZE || NoTag(s, p, |s|))
    ensures starts == {}
  {
    assert forall a :: a in starts ==> a + 4 < |s| && s[a + 4] == '<';
  }

  lemma StartAt(s: string, a: nat)
    requires a + 4 < |s| && s[a + 4] == '<'
    ensures a in Starts(s) <==> RecordEnd(s, a).Some?
  {
  }

  /** What a forward scan answers: the first record start, or that there is none. */
  ghost predicate ForwardFinds(s: string, code: D.Code, start: nat, end: nat, version: int) {
    if Starts(s) == {} then code == D.NoEntry
    else First(Starts(s), start) && RecordEnd(s, start) == Some(end) && (code, version) == Head(s, start, end)
  }

  /** What a backward scan answers: the last record start, or that there is none. */
  ghost predicate ReverseFinds(s: string, code: D.Code, start: nat, end: nat, version: int) {
    if |s| < MIN_SIZE then code == D.NoData
    else if Starts(s) == {} then code == D.NoEntry
    else Last(Starts(s), start) && RecordEnd(s, start) == Some(end) && (code, version) == Head(s, start, end)
  }

  /** Finds the first record start, if there is one. */
  method DetectForward(s: string) returns (code: D.Code, start: nat, end: nat, version: int)
    ensures ForwardFinds(s, code, start, end, version)
  {
    ghost var starts := Starts(s);
    StartsTagged(s);
    var p := 0;
    start, end, version := 0, 0, 0;
    while |s| - p >= MIN_SIZE
      invariant p <= |s| && forall a :: a in starts ==> p <= a
      decreases |s| - p
    {
      var r := NextTag(s, p);
      if r == |s| {
        break;
      }
      if r >= SIZE_LENGTH {
        start := r - SIZE_LENGTH;
        StartAt(s, start);
        if RecordEnd(s, start).Some? {
          FoundForward(s, starts, p, r);
          end := RecordEnd(s, start).value;
          code, version := Head(s, start, end).0, Head(s, start, end).1;
          return;
        }
      }
      SkipForward(s, starts, p, r);
      p := r + 1;
    }
    NothingLeft(s, starts, p);
    code := D.NoEntry;
  }

  lemma SkipBackward(s: string, starts: set<nat>, l: nat, r: nat)
    requires Tagged(s, starts) && (forall a :: a in starts ==> a + 4 < l) && 0 < r && NoTag(s, r, l) && s[r - 1] == '<'
    requires r > 4 ==> r - 5 !in starts
    ensures forall a :: a in starts ==> a + 4 < r - 2
  {
    forall a | a in starts
      ensures a + 4 < r - 2
    {
      assert s[a + 4] == '<' && s[a + 5] == 'r';
      assert a + 4 != r - 1 && a + 5 != r - 1;
    }
  }

  lemma FoundBackward(s: string, starts: set<nat>, l: nat, r: nat)
    requires Tagged(s, starts) && (forall a :: a in starts ==> a + 4 < l) && NoTag(s, r, l) && 4 < r && r - 5 in starts
    ensures Last(starts, r - 5)
  {
    forall a | a in starts
      ensures a <= r - 5
    {
      assert s[a + 4] == '<';
    }
  }

  lemma NothingBefore(s: string, starts: set<nat>, l: int)
    requires Tagged(s, starts) && (forall a :: a in starts ==> a + 4 < l) && (l <= 0 || NoTag(s, 0, l))
    ensures starts == {}
  {
    assert forall a :: a in starts ==> a + 4 < |s| && s[a + 4] == '<';
  }

  /** Finds the last record start, if there is one. */
  method DetectReverse(s: string) returns (code: D.Code, start: nat, end: nat, version: int)
    ensures ReverseFinds(s, code, start, end, version)
  {
    start, end, version := 0, 0, 0;
    if |s| < MIN_SIZE {
      return D.NoData, start, end, version;
    }
    ghost var starts := Starts(s);
    StartsTagged(s);
    var l: int := |s|;
    while l > 0
      invariant l <= |s| && forall a :: a in starts ==> a + 4 < l
    {
      var r := PreviousTag(s, l);
      if r == 0 {
        break;
      }
      if r > SIZE_LENGTH {
        start := r - 1 - SIZE_LENGTH;
        StartAt(s, start);
        if RecordEnd(s, start).Some? {
          FoundBackward(s, starts, l, r);
          end := RecordEnd(s, start).value;
          code, version := Head(s, start, end).0, Head(s, start, end).1;
          return;
        }
      }
      SkipBackward(s, starts, l, r);
      l := r - 2;
    }
    NothingBefore(s, starts, l);
    code := D.NoEntry;
  }

  /** The four characters in front of the tag are not tag characters. */
  lemma StartHoldsDigits(s: string, a: nat)
    requires IsStart(s, a)
    ensures forall i :: a <= i < a + SIZE_LENGTH ==> s[i] != '<'
  {
    var t := s[a..];
    NumberHasNoTag(t);
    forall i | a <= i < a + SIZE_LENGTH
      ensures s[i] != '<'
    {
      assert s[i] == t[i - a];
    }
  }

  lemma {:induction false} SpacesHaveNoTag(s: string)
    ensures forall i :: 0 <= i < SpaceCount(s) ==> s[i] != '<'
  {
    if s != "" && IsSpace(s[0]) {
      SpacesHaveNoTag(s[1..]);
    }
  }

  lemma NumberHasNoTag(s: string)
    ensures forall i :: 0 <= i < ParseInt(s).1 ==> s[i] != '<'
  {
    SpacesHaveNoTag(s);
    var b := SpaceCount(s);
    var d := if b < |s| && (s[b] == '-' || s[b] == '+') then b + 1 else b;
    var k := DigitCount(s[d..]);
    forall i | d <= i < d + k
      ensures IsDigit(s[i])
    {
      assert s[i] == s[d..][i - d];
    }
  }

  /** The tag goes on with a letter. */
  lemma StartGoesOn(s: string, a: nat)
    requires IsStart(s, a)
    ensures a + 5 < |s| && s[a + 5] == 'r'
  {
    assert s[a..][5] == START_TAG[1];
  }
}
