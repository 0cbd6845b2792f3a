/** The two hand-written scanners of the rule compiler: durations and PromQL subqueries. */
module RuleScanners {
  import opened Strings

  // ---- Durations ----

  datatype Unit = Ms | S | M | H | D | W | Y

  datatype Segment = Segment(digits: string, unit: Unit)

  function UnitText(u: Unit): string {
    match u
    case Ms => "ms"
    case S => "s"
    case M => "m"
    case H => "h"
    case D => "d"
    case W => "w"
    case Y => "y"
  }

  function UnitMillis(u: Unit): nat {
    match u
    case Ms => 1
    case S => 1000
    case M => 60_000
    case H => 3_600_000
    case D => 86_400_000
    case W => 604_800_000
    case Y => 31_536_000_000
  }

  predicate HasNonZero(digits: string) {
    exists i :: 0 <= i < |digits| && '1' <= digits[i] <= '9'
  }

  predicate ValidSegment(s: Segment) {
    s.digits != [] && AllDigits(s.digits) && HasNonZero(s.digits)
  }

  predicate AllValid(segs: seq<Segment>) {
    forall i :: 0 <= i < |segs| ==> ValidSegment(segs[i])
  }

  function Print(segs: seq<Segment>): string {
    if segs == [] then "" else segs[0].digits + UnitText(segs[0].unit) + Print(segs[1..])
  }

  /** The grammar: at least one run of digits, not all zero, each followed by a unit. */
  ghost predicate IsDuration(text: string) {
    exists segs :: segs != [] && AllValid(segs) && Print(segs) == text
  }

  // The scanner's reading of a text, as a value.

  function DigitRun(s: string): (n: nat)
    ensures n <= |s|
  {
    if s != [] && IsDigit(s[0]) then 1 + DigitRun(s[1..]) else 0
  }

  function UnitAt(s: string): Option<Unit> {
    if s == [] then None
    else if s[0] == 'm' then Some(if |s| > 1 && s[1] == 's' then Ms else M)
    else if s[0] == 's' then Some(S)
    else if s[0] == 'h' then Some(H)
    else if s[0] == 'd' then Some(D)
    else if s[0] == 'w' then Some(W)
    else if s[0] == 'y' then Some(Y)
    else None
  }

  /** The first segment, and how long it is. */
  function FirstSegment(s: string): Option<(Segment, nat)> {
    var n := DigitRun(s);
    if n == 0 || !HasNonZero(s[..n]) then None
    else
      match UnitAt(s[n..])
      case None => None
      case Some(u) => Some((Segment(s[..n], u), n + |UnitText(u)|))
  }

  lemma FirstSegmentLength(s: string)
    requires FirstSegment(s).Some?
    ensures 0 < FirstSegment(s).value.1 <= |s|
  {
  }

  function Segments(s: string): Option<seq<Segment>>
    decreases |s|
  {
    if s == [] then Some([])
    else
      match FirstSegment(s)
      case None => None
      case Some(first) =>
        FirstSegmentLength(s);
        match Segments(s[first.1..])
        case None => None
        case Some(rest) => Some([first.0] + rest)
  }

  lemma {:induction false} SegmentsUnfold(s: string)
    requires FirstSegment(s).Some?
    ensures var (seg, n) := FirstSegment(s).value;
            0 < n <= |s|
            && (Segments(s).Some? <==> Segments(s[n..]).Some?)
            && (Segments(s).Some? ==> Segments(s).value == [seg] + Segments(s[n..]).value)
  {
    FirstSegmentLength(s);
    hide FirstSegment;
  }

  lemma {:induction false} DigitRunIsDigits(s: string)
    ensures AllDigits(s[..DigitRun(s)]) && (DigitRun(s) < |s| ==> !IsDigit(s[DigitRun(s)]))
  {
    if s != [] && IsDigit(s[0]) {
      DigitRunIsDigits(s[1..]);
      assert forall i :: 0 < i < DigitRun(s) ==> s[i] == s[1..][..DigitRun(s[1..])][i - 1];
    }
  }

  lemma {:induction false} DigitRunOf(digits: string, rest: string)
    requires AllDigits(digits) && (rest == [] || !IsDigit(rest[0]))
    ensures DigitRun(digits + rest) == |digits|
  {
    if digits == [] {
      assert digits + rest == rest;
    } else {
      assert (digits + rest)[1..] == digits[1..] + rest;
      DigitRunOf(digits[1..], rest);
    }
  }

  /** Reading "ms" greedily is never wrong: what follows a unit is the end or a digit. */
  lemma UnitReads(u: Unit, rest: string)
    requires rest == [] || IsDigit(rest[0])
    ensures UnitAt(UnitText(u) + rest) == Some(u)
    ensures !IsDigit((UnitText(u) + rest)[0])
  {
  }

  lemma FirstSegmentReads(seg: Segment, rest: string)
    requires ValidSegment(seg) && (rest == [] || IsDigit(rest[0]))
    ensures var text := seg.digits + UnitText(seg.unit) + rest;
            FirstSegment(text) == Some((seg, |seg.digits| + |UnitText(seg.unit)|))
            && text[|seg.digits| + |UnitText(seg.unit)|..] == rest
  {
    var text := seg.digits + UnitText(seg.unit) + rest;
    UnitReads(seg.unit, rest);
    assert text == seg.digits + (UnitText(seg.unit) + rest);
    DigitRunOf(seg.digits, UnitText(seg.unit) + rest);
    assert text[..|seg.digits|] == seg.digits;
    assert text[|seg.digits|..] == UnitText(seg.unit) + rest;
  }

  lemma PrintStartsWithDigit(segs: seq<Segment>)
    requires AllValid(segs) && segs != []
    ensures Print(segs) != [] && IsDigit(Print(segs)[0])
  {
    assert ValidSegment(segs[0]);
    assert Print(segs)[0] == segs[0].digits[0];
  }

  /** Printing and then scanning gives the segments back. */
  lemma {:induction false} ScanPrint(segs: seq<Segment>)
    requires AllValid(segs)
    ensures Segments(Print(segs)) == Some(segs)
  {
    if segs != [] {
      RestValid(segs);
      FirstPrinted(segs);
      ScanPrint(segs[1..]);
      hide AllValid, ValidSegment, FirstSegment, Segments, Print;
      SegmentsUnfold(Print(segs));
      assert [segs[0]] + segs[1..] == segs;
    }
  }

  lemma {:induction false} FirstPrinted(segs: seq<Segment>)
    requires AllValid(segs) && segs != []
    ensures FirstSegment(Print(segs)).Some? && FirstSegment(Print(segs)).value.0 == segs[0]
    ensures FirstSegment(Print(segs)).value.1 <= |Print(segs)|
    ensures Print(segs)[FirstSegment(Print(segs)).value.1..] == Print(segs[1..])
  {
    RestValid(segs);
    if segs[1..] != [] {
      PrintStartsWithDigit(segs[1..]);
    }
    hide AllValid, ValidSegment, FirstSegment, UnitText, IsDigit;
    FirstSegmentReads(segs[0], Print(segs[1..]));
  }

  lemma RestValid(segs: seq<Segment>)
    requires AllValid(segs) && segs != []
    ensures ValidSegment(segs[0]) && AllValid(segs[1..])
  {
    hide ValidSegment;
    assert forall i :: 0 <= i < |segs[1..]| ==> segs[1..][i] == segs[i + 1];
  }

  /** What the scanner reads prints back as the text. */
  lemma {:induction false} PrintScan(s: string)
    requires Segments(s).Some?
    ensures AllValid(Segments(s).value) && Print(Segments(s).value) == s
    decreases |s|
  {
    if s != [] {
      var (seg, n) := FirstSegment(s).value;
      FirstSegmentPrints(s);
      hide FirstSegment;
      PrintScan(s[n..]);
      var rest := Segments(s[n..]).value;
      assert ([seg] + rest)[1..] == rest;
      assert s == s[..n] + s[n..];
    }
  }

  lemma FirstSegmentPrints(s: string)
    requires FirstSegment(s).Some?
    ensures var (seg, n) := FirstSegment(s).value;
            0 < n <= |s| && ValidSegment(seg) && seg.digits + UnitText(seg.unit) == s[..n]
  {
    DigitRunIsDigits(s);
    var d := DigitRun(s);
    var (seg, n) := FirstSegment(s).value;
    assert UnitText(seg.unit) == s[d..][..|UnitText(seg.unit)|];
    assert s[..n] == s[..d] + s[d..][..|UnitText(seg.unit)|];
  }

  /** The decomposition is unique. */
  lemma UniqueDecomposition(a: seq<Segment>, b: seq<Segment>)
    requires AllValid(a) && AllValid(b) && Print(a) == Print(b)
    ensures a == b
  {
    ScanPrint(a);
    ScanPrint(b);
  }

  function Total(segs: seq<Segment>): nat {
    if segs == [] then 0 else Value(segs[0].digits) * UnitMillis(segs[0].unit) + Total(segs[1..])
  }

  lemma {:induction false} NonZeroValue(digits: string)
    requires AllDigits(digits) && HasNonZero(digits)
    ensures Value(digits) > 0
  {
    var front, last := digits[..|digits| - 1], digits[|digits| - 1];
    if last == '0' {
      var i :| 0 <= i < |digits| && '1' <= digits[i] <= '9';
      assert front[i] == digits[i];
      NonZeroValue(front);
    }
  }

  lemma ProductPositive(v: nat, u: nat)
    requires v > 0 && u > 0
    ensures v * u > 0
  {
  }

  /** An accepted duration is positive. */
  lemma {:induction false} TotalPositive(segs: seq<Segment>)
    requires AllValid(segs) && segs != []
    ensures Total(segs) > 0
  {
    assert ValidSegment(segs[0]);
    NonZeroValue(segs[0].digits);
    ProductPositive(Value(segs[0].digits), UnitMillis(segs[0].unit));
  }

  lemma ScannerIsGrammar(text: string)
    ensures text != [] && Segments(text).Some? <==> IsDuration(text)
  {
    if text != [] && Segments(text).Some? {
      PrintScan(text);
      assert Segments(text).value != [];
    }
    if IsDuration(text) {
      var segs :| segs != [] && AllValid(segs) && Print(segs) == text;
      ScanPrint(segs);
      PrintStartsWithDigit(segs);
    }
  }

  method HasNonZeroDigit(value: string) returns (found: bool)
    ensures found == HasNonZero(value)
  {
    for i := 0 to |value|
      invariant forall j :: 0 <= j < i ==> !('1' <= value[j] <= '9')
    {
      if '1' <= value[i] <= '9' {
        return true;
      }
    }
    found := false;
  }

  method ScanDigits(duration: string, start: nat) returns (i: nat)
    requires start <= |duration|
    ensures i == start + DigitRun(duration[start..]) && i <= |duration|
  {
    i := start;
    while i < |duration| && IsDigit(duration[i])
      invariant start <= i <= |duration|
      invariant i + DigitRun(duration[i..]) == start + DigitRun(duration[start..])
    {
      assert duration[i..][1..] == duration[i + 1..];
      i := i + 1;
    }
  }

  function UnitLength(s: string): (n: nat)
    ensures n <= |s|
  {
    match UnitAt(s)
    case None => 0
    case Some(u) => |UnitText(u)|
  }

  lemma FirstSegmentLooks(s: string)
    ensures var n := DigitRun(s);
            (FirstSegment(s).Some? <==> n > 0 && HasNonZero(s[..n]) && UnitLength(s[n..]) > 0)
            && (FirstSegment(s).Some? ==> FirstSegment(s).value.1 == n + UnitLength(s[n..]))
  {
    hide HasNonZero, DigitRun;
  }

  lemma SegmentsStop(s: string)
    requires s != [] && FirstSegment(s).None?
    ensures Segments(s).None?
  {
    hide FirstSegment;
  }

  lemma {:induction false} SegmentsStep(s: string)
    requires s != []
    ensures var n := DigitRun(s);
            (Segments(s).Some?
             <==> n > 0 && HasNonZero(s[..n]) && UnitLength(s[n..]) > 0
                  && Segments(s[n + UnitLength(s[n..])..]).Some?)
  {
    FirstSegmentLooks(s);
    hide HasNonZero, DigitRun, UnitLength, FirstSegment, Segments;
    if FirstSegment(s).Some? {
      SegmentsUnfold(s);
    } else {
      SegmentsStop(s);
    }
  }

  /** One round of the scan: digits up to middle, then a unit up to end. */
  lemma ScanStep(text: string, start: nat, middle: nat, end: nat)
    requires start < |text| && middle == start + DigitRun(text[start..])
    requires end == middle + UnitLength(text[middle..])
    ensures Segments(text[start..]).Some?
       <==> start < middle && HasNonZero(text[start..middle]) && middle < end && Segments(text[end..]).Some?
  {
    hide HasNonZero, DigitRun, UnitLength, Segments;
    var rest := text[start..];
    assert rest[..middle - start] == text[start..middle] && rest[middle - start..] == text[middle..];
    assert rest[end - start..] == text[end..];
    SegmentsStep(rest);
  }

  /** How long the unit at a position is, in the scanner's branches. */
  lemma UnitBranches(text: string, i: nat)
    requires i <= |text|
    ensures UnitLength(text[i..])
         == if i < |text| && text[i] == 'm' then (if i + 1 < |text| && text[i + 1] == 's' then 2 else 1)
            else if i < |text| && text[i] in "smhdwy" then 1 else 0
  {
  }

  method ValidateDuration(duration: string) returns (ok: bool)
    ensures ok <==> IsDuration(duration)
  {
    ScannerIsGrammar(duration);
    assert Segments([]).Some?;
    hide IsDuration, Segments, DigitRun, HasNonZero, UnitLength;
    if duration == "" {
      return false;
    }
    var i := 0;
    assert duration[0..] == duration;
    while i < |duration|
      invariant 0 <= i <= |duration|
      invariant Segments(duration).Some? <==> Segments(duration[i..]).Some?
    {
      var start := i;
      i := ScanDigits(duration, start);
      UnitBranches(duration, i);
      ghost var end := i + UnitLength(duration[i..]);
      ScanStep(duration, start, i, end);
      if start == i {
        return false;
      }
      var nonZero := HasNonZeroDigit(duration[start..i]);
      if !nonZero {
        return false;
      }
      var unitStart := i;
      if i < |duration| && duration[i] == 'm' {
        i := i + 1;
        if i < |duration| && duration[i] == 's' {
          i := i + 1;
        }
      } else if i < |duration| && duration[i] in "smhdwy" {
        i := i + 1;
      }
      assert i == end;
      if unitStart == i {
        return false;
      }
    }
    assert duration[i..] == [];
    ok := true;
  }

  // ---- Subqueries ----

  /** Some '[' with a ':' before the first ']' after it. */
  ghost predicate HasSubquery(s: string) {
    exists i, k, j :: Group(s, i, k, j)
  }

  predicate Group(s: string, i: int, k: int, j: int) {
    && 0 <= i < k < j < |s| && s[i] == '[' && s[k] == ':' && s[j] == ']'
    && forall m :: i < m < j ==> s[m] != ']'
  }

  /** Whether a '[' is still open at the end, and whether a ':' follows such a one. */
  ghost predicate Open(s: string) {
    exists i :: OpenAt(s, i)
  }

  predicate OpenAt(s: string, i: int) {
    0 <= i < |s| && s[i] == '[' && forall m :: i < m < |s| ==> s[m] != ']'
  }

  ghost predicate OpenColon(s: string) {
    exists i, k :: OpenColonAt(s, i, k)
  }

  predicate OpenColonAt(s: string, i: int, k: int) {
    OpenAt(s, i) && i < k < |s| && s[k] == ':'
  }

  datatype Scan = Outside | Inside(colon: bool) | Found

  function ScanChar(state: Scan, c: char): Scan {
    match state
    case Found => Found
    case Outside => if c == '[' then Inside(false) else Outside
    case Inside(colon) =>
      if c == ']' then (if colon then Found else Outside)
      else if c == ':' then Inside(true) else state
  }

  /** The one-pass automaton. */
  function Automaton(s: string): Scan {
    if s == [] then Outside else ScanChar(Automaton(s[..|s| - 1]), s[|s| - 1])
  }

  lemma OpenSnoc(s: string, c: char)
    ensures Open(s + [c]) <==> c != ']' && (Open(s) || c == '[')
    ensures OpenColon(s + [c]) <==> c != ']' && (OpenColon(s) || (c == ':' && Open(s)))
  {
    var t, n := s + [c], |s|;
    if c != ']' {
      forall i | OpenAt(s, i) ensures OpenAt(t, i) {
      }
      forall i, k | OpenColonAt(s, i, k) ensures OpenColonAt(t, i, k) {
        assert OpenAt(t, i);
      }
      if c == '[' {
        assert OpenAt(t, n);
      }
      if c == ':' && Open(s) {
        var i :| OpenAt(s, i);
        assert OpenColonAt(t, i, n);
      }
      if Open(t) {
        var i :| OpenAt(t, i);
        assert i < n ==> OpenAt(s, i) by {
          if i < n {
            forall m | i < m < n ensures s[m] != ']' {
              assert t[m] == s[m];
            }
          }
        }
      }
      if OpenColon(t) {
        var i, k :| OpenColonAt(t, i, k);
        forall m | i < m < n ensures s[m] != ']' {
          assert t[m] == s[m];
        }
        assert OpenAt(s, i);
        assert k < n ==> OpenColonAt(s, i, k);
      }
    } else {
      assert t[n] == ']';
    }
  }

  lemma SubquerySnoc(s: string, c: char)
    ensures HasSubquery(s + [c]) <==> HasSubquery(s) || (c == ']' && OpenColon(s))
  {
    var t, n := s + [c], |s|;
    forall i, k, j | Group(s, i, k, j) ensures Group(t, i, k, j) {
    }
    if c == ']' && OpenColon(s) {
      var i, k :| OpenColonAt(s, i, k);
      assert Group(t, i, k, n);
    }
    if HasSubquery(t) {
      var i, k, j :| Group(t, i, k, j);
      forall m | i < m < j ensures s[m] != ']' {
        assert t[m] == s[m];
      }
      if j < n {
        assert Group(s, i, k, j);
      } else {
        assert OpenColonAt(s, i, k) by {
          assert OpenAt(s, i);
        }
      }
    }
  }

  /** The automaton finds exactly the texts with a subquery. */
  lemma {:induction false} AutomatonFinds(s: string)
    ensures Automaton(s) == Found <==> HasSubquery(s)
    ensures Automaton(s) != Found ==> (Automaton(s).Inside? <==> Open(s))
    ensures Automaton(s) != Found && Automaton(s).Inside? ==> (Automaton(s).colon <==> OpenColon(s))
    ensures OpenColon(s) ==> Open(s)
  {
    if s != [] {
      var front, c := s[..|s| - 1], s[|s| - 1];
      assert s == front + [c];
      AutomatonFinds(front);
      OpenSnoc(front, c);
      SubquerySnoc(front, c);
      hide HasSubquery, Open, OpenColon;
    }
  }

  /** strings.Index of one character from a position on, -1 when there is none. */
  method IndexFrom(s: string, from: nat, c: char) returns (index: int)
    requires from <= |s|
    ensures index == -1 ==> forall m :: from <= m < |s| ==> s[m] != c
    ensures index != -1 ==> from <= index < |s| && s[index] == c && forall m :: from <= m < index ==> s[m] != c
  {
    for i := from to |s|
      invariant forall m :: from <= m < i ==> s[m] != c
    {
      if s[i] == c {
        return i;
      }
    }
    index := -1;
  }

  method ContainsSubquery(expr: string) returns (found: bool)
    ensures found <==> HasSubquery(expr)
    ensures found <==> Automaton(expr) == Found
  {
    AutomatonFinds(expr);
    hide Automaton;
    var start := IndexFrom(expr, 0, '[');
    while start >= 0
      invariant start == -1 || (0 <= start < |expr| && expr[start] == '[')
      invariant forall i, k, j :: Group(expr, i, k, j) ==> 0 <= start <= i
      decreases if start < 0 then 0 else |expr| - start
    {
      var end := IndexFrom(expr, start, ']');
      if end < 0 {
        return false;
      }
      var colon := IndexFrom(expr[..end], start + 1, ':');
      if colon >= 0 {
        assert Group(expr, start, colon, end);
        return true;
      }
      assert forall k :: start + 1 <= k < end ==> expr[..end][k] == expr[k];
      assert forall i, k, j :: Group(expr, i, k, j) && i < end ==> j == end;
      var next := end + 1;
      if next >= |expr| {
        return false;
      }
      var offset := IndexFrom(expr, next, '[');
      if offset < 0 {
        return false;
      }
      start := offset;
    }
    found := false;
  }

  // ---- The units, spelled out ----

  lemma UnitsAre(text: string)
    ensures (exists u :: UnitText(u) == text) <==> text in {"ms", "s", "m", "h", "d", "w", "y"}
  {
    assert UnitText(Ms) == "ms" && UnitText(S) == "s" && UnitText(M) == "m" && UnitText(H) == "h";
    assert UnitText(D) == "d" && UnitText(W) == "w" && UnitText(Y) == "y";
  }
}
