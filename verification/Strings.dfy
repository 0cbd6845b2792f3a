/** Text helpers shared by the models: decimal digits, joining and trimming. */
module Strings {

  datatype Option<+T> = None | Some(value: T)

  const MAX_INT64 := 0x7fff_ffff_ffff_ffff
  const MIN_INT64 := -0x8000_0000_0000_0000

  predicate IsDigit(c: char) {
    '0' <= c <= '9'
  }

  predicate AllDigits(s: string) {
    forall i :: 0 <= i < |s| ==> IsDigit(s[i])
  }

  function DigitChar(d: nat): char
    requires d < 10
  {
    (48 + d) as char
  }

  function DigitValue(c: char): nat {
    if IsDigit(c) then c as int - 48 else 0
  }

  /** The number a run of decimal digits denotes; leading zeros do not count. */
  function Value(s: string): nat {
    if s == [] then 0 else 10 * Value(s[..|s| - 1]) + DigitValue(s[|s| - 1])
  }

  function Decimal(n: nat): string {
    if n < 10 then [DigitChar(n)] else Decimal(n / 10) + [DigitChar(n % 10)]
  }

  lemma {:induction false} DecimalReads(n: nat)
    ensures Decimal(n) != [] && AllDigits(Decimal(n)) && Value(Decimal(n)) == n
    ensures Decimal(n)[0] == '0' ==> n == 0
  {
    if n < 10 {
      assert Value([DigitChar(n)]) == 10 * Value([]) + n;
    } else {
      DecimalReads(n / 10);
      var front := Decimal(n / 10);
      assert Decimal(n)[..|Decimal(n)| - 1] == front;
    }
  }

  /** Digits without a leading zero are the decimal form of their value. */
  lemma {:induction false} ValueIsCanonical(s: string)
    requires s != [] && AllDigits(s) && (s[0] != '0' || |s| == 1)
    ensures Decimal(Value(s)) == s
    ensures |s| > 1 ==> Value(s) >= 10
  {
    var front, last := s[..|s| - 1], s[|s| - 1];
    assert s == front + [last];
    if front == [] {
      assert Value(s) == 10 * Value(front) + DigitValue(last);
    } else {
      ValueIsCanonical(front);
      assert front[0] == s[0] && Decimal(0) == "0";
      assert Value(s) / 10 == Value(front) && Value(s) % 10 == DigitValue(last);
    }
  }

  function FormatInt(i: int): string {
    if i < 0 then "-" + Decimal(-i) else Decimal(i)
  }

  /** Zero-padded to at least width characters. */
  function Padded(n: nat, width: nat): string {
    PadLeft(Decimal(n), width)
  }

  function PadLeft(s: string, width: nat): string
    decreases width - |s|
  {
    if |s| >= width then s else PadLeft("0" + s, width)
  }

  lemma {:induction false} PadLeftReads(s: string, width: nat)
    requires AllDigits(s)
    ensures AllDigits(PadLeft(s, width)) && Value(PadLeft(s, width)) == Value(s)
    ensures |PadLeft(s, width)| == if |s| >= width then |s| else width
    decreases width - |s|
  {
    if |s| < width {
      LeadingZero(s);
      PadLeftReads("0" + s, width);
    }
  }

  lemma {:induction false} LeadingZero(s: string)
    requires AllDigits(s)
    ensures AllDigits("0" + s) && Value("0" + s) == Value(s)
  {
    var z := "0" + s;
    if s == [] {
      assert z[..|z| - 1] == [];
    } else {
      LeadingZero(s[..|s| - 1]);
      assert z[..|z| - 1] == "0" + s[..|s| - 1];
    }
  }

  lemma PaddedReads(n: nat, width: nat)
    ensures Padded(n, width) != [] && AllDigits(Padded(n, width)) && Value(Padded(n, width)) == n
  {
    DecimalReads(n);
    PadLeftReads(Decimal(n), width);
  }

  lemma PaddedLength(n: nat, width: nat)
    requires n < Pow10(width) && width > 0
    ensures |Padded(n, width)| == width
  {
    DecimalReads(n);
    DecimalWidth(n, width);
    PadLeftReads(Decimal(n), width);
  }

  lemma {:induction false} DecimalWidth(n: nat, width: nat)
    requires n < Pow10(width) && width > 0
    ensures |Decimal(n)| <= width
  {
    if n >= 10 {
      assert width > 1 by { assert Pow10(1) == 10 * Pow10(0); }
      DecimalWidth(n / 10, width - 1);
    }
  }

  function Pow10(k: nat): nat {
    if k == 0 then 1 else 10 * Pow10(k - 1)
  }

  function Join(parts: seq<string>, sep: string): string {
    if parts == [] then ""
    else if |parts| == 1 then parts[0]
    else parts[0] + sep + Join(parts[1..], sep)
  }

  lemma {:induction false} JoinSnoc(parts: seq<string>, last: string, sep: string)
    requires parts != []
    ensures Join(parts + [last], sep) == Join(parts, sep) + sep + last
  {
    var all := parts + [last];
    if |parts| == 1 {
      assert all[1..] == [last];
    } else {
      assert all[1..] == parts[1..] + [last];
      JoinSnoc(parts[1..], last, sep);
      assert parts[0] + sep + (Join(parts[1..], sep) + sep + last)
          == parts[0] + sep + Join(parts[1..], sep) + sep + last;
    }
  }

  /** A text that ends in sep, piece determines both sides when piece has no sep in it. */
  lemma LastPiece(x: string, p: string, y: string, q: string, sep: char)
    requires x + [sep] + p == y + [sep] + q
    requires sep !in p && sep !in q
    ensures x == y && p == q
  {
    var s, t := x + [sep] + p, y + [sep] + q;
    assert s[|x|] == sep && t[|y|] == sep;
    assert forall k :: |x| < k < |s| ==> s[k] == p[k - |x| - 1];
    assert forall k :: |y| < k < |t| ==> t[k] == q[k - |y| - 1];
    assert |x| == |y|;
    assert x == s[..|x|] && y == t[..|y|];
    assert p == s[|x| + 1..] && q == t[|y| + 1..];
  }

  lemma SameTail(x: string, a: string, y: string, b: string)
    requires x + a == y + b && (|a| == |b| || |x| == |y|)
    ensures x == y && a == b
  {
    assert |x + a| == |y + b|;
    assert x == (x + a)[..|x|] && y == (y + b)[..|y|];
    assert a == (x + a)[|x|..] && b == (y + b)[|y|..];
  }

  lemma SameHead(h: string, a: string, b: string)
    requires h + a == h + b
    ensures a == b
  {
    assert a == (h + a)[|h|..] && b == (h + b)[|h|..];
  }

  lemma LastThreePieces(x: string, a: string, b: string, c: string, y: string, a': string, b': string, c': string,
                        sep: char)
    requires x + [sep] + (a + [sep] + b + [sep] + c) == y + [sep] + (a' + [sep] + b' + [sep] + c')
    requires sep !in a && sep !in b && sep !in c && sep !in a' && sep !in b' && sep !in c'
    ensures x == y && a == a' && b == b' && c == c'
  {
    Regroup(x, a, b, c, sep);
    Regroup(y, a', b', c', sep);
    LastPiece(x + [sep] + a + [sep] + b, c, y + [sep] + a' + [sep] + b', c', sep);
    LastPiece(x + [sep] + a, b, y + [sep] + a', b', sep);
    LastPiece(x, a, y, a', sep);
  }

  lemma Regroup(x: string, a: string, b: string, c: string, sep: char)
    ensures x + [sep] + (a + [sep] + b + [sep] + c) == x + [sep] + a + [sep] + b + [sep] + c
  {
  }

  /** Unicode white space, as strings.TrimSpace counts it. */
  predicate IsSpace(c: char) {
    c in {'\t', '\n', '\U{b}', '\U{c}', '\r', ' ', '\U{85}', '\U{a0}', '\U{1680}', '\U{2028}', '\U{2029}',
          '\U{202f}', '\U{205f}', '\U{3000}'} || '\U{2000}' <= c <= '\U{200a}'
  }

  function TrimLeft(s: string): string {
    if s != [] && IsSpace(s[0]) then TrimLeft(s[1..]) else s
  }

  function TrimRight(s: string): string {
    if s != [] && IsSpace(s[|s| - 1]) then TrimRight(s[..|s| - 1]) else s
  }

  function TrimSpace(s: string): string {
    TrimRight(TrimLeft(s))
  }

  predicate AllSpace(s: string) {
    forall i :: 0 <= i < |s| ==> IsSpace(s[i])
  }

  predicate TrimmedAs(s: string, left: string, t: string, right: string) {
    && s == left + t + right && AllSpace(left) && AllSpace(right)
    && (t != "" ==> !IsSpace(t[0]) && !IsSpace(t[|t| - 1]))
  }

  /** t is s without the white space around it. */
  ghost predicate Trims(s: string, t: string) {
    exists left, right :: TrimmedAs(s, left, t, right)
  }

  lemma {:induction false} TrimLeftOf(left: string, t: string)
    requires AllSpace(left) && (t != "" ==> !IsSpace(t[0]))
    ensures TrimLeft(left + t) == t
  {
    hide IsSpace;
    if left == "" {
      assert left + t == t;
    } else {
      assert (left + t)[1..] == left[1..] + t;
      TrimLeftOf(left[1..], t);
    }
  }

  lemma {:induction false} TrimRightOf(t: string, right: string)
    requires AllSpace(right) && (t != "" ==> !IsSpace(t[|t| - 1]))
    ensures TrimRight(t + right) == t
  {
    hide IsSpace;
    if right == "" {
      assert t + right == t;
    } else {
      assert (t + right)[..|t + right| - 1] == t + right[..|right| - 1];
      TrimRightOf(t, right[..|right| - 1]);
    }
  }

  lemma {:induction false} SplitLeft(s: string) returns (left: string)
    ensures AllSpace(left) && s == left + TrimLeft(s)
    ensures TrimLeft(s) != "" ==> !IsSpace(TrimLeft(s)[0])
  {
    hide IsSpace;
    left := "";
    if s != [] && IsSpace(s[0]) {
      left := SplitLeft(s[1..]);
      left := [s[0]] + left;
    }
  }

  lemma {:induction false} SplitRight(s: string) returns (right: string)
    ensures AllSpace(right) && s == TrimRight(s) + right
    ensures TrimRight(s) != "" ==> !IsSpace(TrimRight(s)[|TrimRight(s)| - 1])
    ensures TrimRight(s) != "" ==> TrimRight(s)[0] == s[0]
  {
    hide IsSpace;
    right := "";
    if s != [] && IsSpace(s[|s| - 1]) {
      right := SplitRight(s[..|s| - 1]);
      right := right + [s[|s| - 1]];
    }
  }

  lemma TrimmedIs(s: string, left: string, t: string, right: string)
    requires TrimmedAs(s, left, t, right)
    ensures TrimSpace(s) == t
  {
    hide IsSpace;
    if t == "" {
      assert s == left + right + "";
      assert AllSpace(left + right);
      TrimLeftOf(left + right, "");
    } else {
      assert s == left + (t + right);
      assert (t + right)[0] == t[0];
      TrimLeftOf(left, t + right);
      TrimRightOf(t, right);
    }
  }

  /** Trimming takes away the white space around a text and nothing else. */
  lemma TrimSpaceIs(s: string, t: string)
    ensures TrimSpace(s) == t <==> Trims(s, t)
  {
    if Trims(s, t) {
      var left, right :| TrimmedAs(s, left, t, right);
      TrimmedIs(s, left, t, right);
    }
    var left := SplitLeft(s);
    var right := SplitRight(TrimLeft(s));
    hide IsSpace, TrimLeft, TrimRight;
    assert TrimmedAs(s, left, TrimSpace(s), right);
  }

  /** Byte-wise order of two texts. */
  predicate Less(a: string, b: string) {
    b != [] && (a == [] || a[0] < b[0] || (a[0] == b[0] && Less(a[1..], b[1..])))
  }

  /** The texts agree up to k, where the first ends or has the smaller character. */
  predicate LessAt(a: string, b: string, k: nat) {
    && k <= |a| && k < |b| && a[..k] == b[..k]
    && (k == |a| || a[k] < b[k])
  }

  lemma {:induction false} LessIsLexicographic(a: string, b: string)
    ensures Less(a, b) <==> exists k :: LessAt(a, b, k)
  {
    if b == [] || a == [] || a[0] != b[0] {
      assert b != [] && (a == [] || a[0] < b[0]) ==> LessAt(a, b, 0);
      assert forall k :: k > 0 && LessAt(a, b, k) ==> a[..k][0] == b[..k][0];
    } else {
      LessIsLexicographic(a[1..], b[1..]);
      forall k: nat ensures LessAt(a[1..], b[1..], k) <==> LessAt(a, b, k + 1) {
        LessAtTail(a, b, k);
      }
      assert !LessAt(a, b, 0);
      assert forall k: nat :: LessAt(a, b, k) ==> LessAt(a[1..], b[1..], k - 1);
    }
  }

  lemma LessAtTail(a: string, b: string, k: nat)
    requires a != "" && b != "" && a[0] == b[0]
    ensures LessAt(a[1..], b[1..], k) <==> LessAt(a, b, k + 1)
  {
    if k < |a| && k + 1 < |b| {
      assert a[..k + 1] == [a[0]] + a[1..][..k] && b[..k + 1] == [b[0]] + b[1..][..k];
      assert a[1..][..k] == a[..k + 1][1..] && b[1..][..k] == b[..k + 1][1..];
    }
  }

  lemma {:induction false} LessIsTotal(a: string, b: string)
    ensures a == b || Less(a, b) || Less(b, a)
    ensures !(Less(a, b) && Less(b, a))
    ensures a == b ==> !Less(a, b)
  {
    if a != [] && b != [] && a[0] == b[0] {
      LessIsTotal(a[1..], b[1..]);
      assert a == [a[0]] + a[1..] && b == [b[0]] + b[1..];
    }
  }

  lemma {:induction false} LessIsTransitive(a: string, b: string, c: string)
    requires Less(a, b) && Less(b, c)
    ensures Less(a, c)
  {
    if a != [] && a[0] == b[0] == c[0] {
      LessIsTransitive(a[1..], b[1..], c[1..]);
    }
  }

  /** The Unicode tables the library brings for characters beyond ASCII: which ones print, and their lower case. */
  datatype Tables = Tables(printable: char -> bool, lower: char -> char)

  ghost predicate Contains(s: string, part: string) {
    exists i :: OccursAt(s, part, i)
  }

  predicate OccursAt(s: string, part: string, i: int) {
    0 <= i && i + |part| <= |s| && s[i..i + |part|] == part
  }

  function LowerChar(c: char, t: Tables): char {
    if 'A' <= c <= 'Z' then (c as int + 32) as char else if c < '\U{80}' then c else t.lower(c)
  }

  /** strings.ToLower. */
  function Lower(s: string, t: Tables): (r: string)
    ensures |r| == |s| && forall i :: 0 <= i < |s| ==> r[i] == LowerChar(s[i], t)
  {
    seq(|s|, i requires 0 <= i < |s| => LowerChar(s[i], t))
  }

  /** The two texts differ at most in the case of ASCII letters. */
  predicate SameButCase(a: string, b: string) {
    |a| == |b| && forall i :: 0 <= i < |a| ==> SameLetter(a[i], b[i])
  }

  predicate SameLetter(a: char, b: char) {
    || a == b
    || ('A' <= a <= 'Z' && b as int == a as int + 32)
    || ('A' <= b <= 'Z' && a as int == b as int + 32)
  }

  /** A lower-case ASCII text. */
  predicate LowerAscii(s: string) {
    forall i :: 0 <= i < |s| ==> s[i] < '\U{80}' && !('A' <= s[i] <= 'Z')
  }

  /** Lower-casing maps every case variant of a lower-case text onto it. */
  lemma LowerOfVariant(s: string, part: string, t: Tables)
    requires LowerAscii(part) && SameButCase(s, part)
    ensures Lower(s, t) == part
  {
    forall i | 0 <= i < |s| ensures Lower(s, t)[i] == part[i] {
      assert SameLetter(s[i], part[i]);
    }
  }

  /** strings.Contains. */
  method HasPart(s: string, part: string) returns (found: bool)
    ensures found <==> Contains(s, part)
  {
    var i := 0;
    while i + |part| <= |s|
      invariant forall k :: k < i ==> !OccursAt(s, part, k)
    {
      if s[i..i + |part|] == part {
        assert OccursAt(s, part, i);
        return true;
      }
      i := i + 1;
    }
    found := false;
  }
}
