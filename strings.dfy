/**
 * The Ruby string operations that the disk store, the server and the
 * backdater rely on: whitespace splitting (`String#split` with no pattern
 * or with " "), splitting on a one-character separator (`String#split("/")`),
 * `Array#join`, byte-wise string comparison (`String#<=>`), `String#to_i`,
 * integer interpolation (`"#{n}"`) and case-insensitive unanchored matching
 * of a literal pattern (`=~ /word/i`).
 */
module Strings {

  datatype Option<+T> = None | Some(value: T)

  // ---------------------------------------------------------------------
  // Whitespace splitting

  /** ASCII whitespace as Ruby's awk-style split understands it. */
  predicate IsSpace(c: char) {
    c == ' ' || c == '\t' || c == '\n' || c == '\r' || c as int == 11 || c as int == 12
  }

  predicate NoSpace(s: string) {
    forall i :: 0 <= i < |s| ==> !IsSpace(s[i])
  }

  predicate AllSpace(s: string) {
    forall i :: 0 <= i < |s| ==> IsSpace(s[i])
  }

  /** `s` with its leading whitespace removed. */
  function SkipSpaces(s: string): (r: string)
    ensures |r| <= |s| && r == s[|s| - |r|..]
    ensures r == [] || !IsSpace(r[0])
    ensures AllSpace(s[..|s| - |r|])
  {
    if s != [] && IsSpace(s[0]) then SkipSpaces(s[1..]) else s
  }

  /** Length of the run of non-whitespace characters that starts `s`. */
  function TokenLength(s: string): (n: nat)
    ensures n <= |s|
    ensures NoSpace(s[..n])
    ensures n == |s| || IsSpace(s[n])
  {
    if s == [] || IsSpace(s[0]) then 0 else 1 + TokenLength(s[1..])
  }

  /** `s.split` / `s.split(" ")`: the maximal runs of non-whitespace characters. */
  function Fields(s: string): (r: seq<string>)
    ensures forall i :: 0 <= i < |r| ==> r[i] != [] && NoSpace(r[i])
    decreases |s|
  {
    var t := SkipSpaces(s);
    if t == [] then []
    else
      var n := TokenLength(t);
      [t[..n]] + Fields(t[n..])
  }

  /** A row splits into no field exactly when it is blank. */
  lemma {:induction false} FieldsEmptyIffBlank(s: string)
    ensures Fields(s) == [] <==> AllSpace(s)
  {
    var t := SkipSpaces(s);
    if t == [] {
      assert s[..|s|] == s;
    } else {
      assert !IsSpace(s[|s| - |t|]);
    }
  }

  /** A token followed by whitespace and the rest of a line. */
  lemma {:induction false} FieldsOfTokenThen(a: string, b: string)
    requires a != [] && NoSpace(a)
    requires b == [] || IsSpace(b[0])
    ensures Fields(a + b) == [a] + Fields(b)
  {
    var s := a + b;
    assert SkipSpaces(s) == s;
    TokenLengthOfTokenThen(a, b);
    assert s[..|a|] == a;
    assert s[|a|..] == b;
  }

  lemma {:induction false} TokenLengthOfTokenThen(a: string, b: string)
    requires NoSpace(a)
    requires b == [] || IsSpace(b[0])
    ensures TokenLength(a + b) == |a|
    decreases |a|
  {
    if a != [] {
      assert (a + b)[1..] == a[1..] + b;
      TokenLengthOfTokenThen(a[1..], b);
    } else {
      assert a + b == b;
    }
  }

  lemma {:induction false} FieldsOfLeadingSpace(b: string)
    requires b != [] && IsSpace(b[0])
    ensures Fields(b) == Fields(b[1..])
  {
  }

  lemma {:induction false} FieldsOfSingleToken(b: string)
    requires b != [] && NoSpace(b)
    ensures Fields(b) == [b]
  {
    assert b + [] == b;
    FieldsOfTokenThen(b, []);
    assert Fields([]) == [];
  }

  /** `"#{a} #{b}".split == [a, b]` for two whitespace-free tokens. */
  lemma {:induction false} FieldsOfPair(a: string, b: string)
    requires a != [] && NoSpace(a)
    requires b != [] && NoSpace(b)
    ensures Fields(a + " " + b) == [a, b]
  {
    FieldsOfSpaced(a, b);
    SpacedConcat(a, b);
    PairConcat(a, b);
  }

  lemma {:induction false} FieldsOfSpaced(a: string, b: string)
    requires a != [] && NoSpace(a)
    requires b != [] && NoSpace(b)
    ensures Fields(a + ([' '] + b)) == [a] + [b]
  {
    var tail := [' '] + b;
    FieldsOfSpacedToken(b);
    FieldsOfTokenThen(a, tail);
  }

  lemma PairConcat(a: string, b: string)
    ensures [a] + [b] == [a, b]
  {
  }

  lemma SpacedConcat(a: string, b: string)
    ensures a + " " + b == a + ([' '] + b)
  {
  }

  lemma {:induction false} FieldsOfSpacedToken(b: string)
    requires b != [] && NoSpace(b)
    ensures Fields([' '] + b) == [b]
  {
    var tail := [' '] + b;
    FieldsOfLeadingSpace(tail);
    assert tail[1..] == b;
    FieldsOfSingleToken(b);
  }

  // ---------------------------------------------------------------------
  // Splitting on a separator, and joining

  /** Index of the last `c` in `s`, or -1. */
  function LastIndexOf(s: string, c: char): (k: int)
    ensures -1 <= k < |s|
    ensures k >= 0 ==> s[k] == c
    ensures forall j :: k < j < |s| ==> s[j] != c
  {
    if s == [] then -1
    else if s[|s| - 1] == c then |s| - 1
    else LastIndexOf(s[..|s| - 1], c)
  }

  /** Every piece between separators, empty pieces included. */
  function Segments(s: string, sep: char): (r: seq<string>)
    ensures |r| >= 1
    ensures forall i :: 0 <= i < |r| ==> sep !in r[i]
    decreases |s|
  {
    var k := LastIndexOf(s, sep);
    if k < 0 then [s] else Segments(s[..k], sep) + [s[k + 1..]]
  }

  /** `parts.join(sep)`. */
  function JoinWith(parts: seq<string>, sep: char): string
  {
    if |parts| == 0 then ""
    else if |parts| == 1 then parts[0]
    else JoinWith(parts[..|parts| - 1], sep) + [sep] + parts[|parts| - 1]
  }

  /** Joining the pieces gives the string back. */
  lemma {:induction false} JoinSegments(s: string, sep: char)
    ensures JoinWith(Segments(s, sep), sep) == s
    decreases |s|
  {
    var k := LastIndexOf(s, sep);
    if k >= 0 {
      var init := Segments(s[..k], sep);
      var parts := init + [s[k + 1..]];
      assert parts[..|parts| - 1] == init;
      JoinSegments(s[..k], sep);
      assert s == s[..k] + [sep] + s[k + 1..];
    }
  }

  /** Splitting a join of separator-free pieces gives the pieces back. */
  lemma {:induction false} SegmentsJoin(parts: seq<string>, sep: char)
    requires |parts| >= 1
    requires forall i :: 0 <= i < |parts| ==> sep !in parts[i]
    ensures Segments(JoinWith(parts, sep), sep) == parts
    decreases |parts|
  {
    if |parts| > 1 {
      var init := parts[..|parts| - 1];
      var last := parts[|parts| - 1];
      SegmentsAfterSeparator(JoinWith(init, sep), last, sep);
      SegmentsJoin(init, sep);
    }
  }

  /** The last piece of `x + [sep] + y` is `y` when `y` has no separator. */
  lemma {:induction false} SegmentsAfterSeparator(x: string, y: string, sep: char)
    requires sep !in y
    ensures LastIndexOf(x + [sep] + y, sep) == |x|
    ensures Segments(x + [sep] + y, sep) == Segments(x, sep) + [y]
  {
    var s := x + [sep] + y;
    LastIndexAfter(x + [sep], y, sep);
    assert s[..|x|] == x;
    assert s[|x| + 1..] == y;
  }

  lemma {:induction false} LastIndexAfter(x: string, y: string, c: char)
    requires x != [] && x[|x| - 1] == c
    requires c !in y
    ensures LastIndexOf(x + y, c) == |x| - 1
    decreases |y|
  {
    if y != [] {
      assert (x + y)[..|x + y| - 1] == x + y[..|y| - 1];
      LastIndexAfter(x, y[..|y| - 1], c);
    } else {
      assert x + y == x;
    }
  }

  /** Appending text without `c` leaves the last `c` where it was. */
  lemma {:induction false} LastIndexOfAppend(x: string, y: string, c: char)
    requires c !in y
    ensures LastIndexOf(x + y, c) == LastIndexOf(x, c)
    decreases |y|
  {
    if y != [] {
      assert (x + y)[..|x + y| - 1] == x + y[..|y| - 1];
      LastIndexOfAppend(x, y[..|y| - 1], c);
    } else {
      assert x + y == x;
    }
  }

  function DropTrailingEmpty(parts: seq<string>): (r: seq<string>)
    ensures |r| <= |parts| && r == parts[..|r|]
    ensures r == [] || r[|r| - 1] != []
  {
    if parts == [] || parts[|parts| - 1] != [] then parts
    else DropTrailingEmpty(parts[..|parts| - 1])
  }

  /** `s.split(sep)` for a one-character string pattern: trailing empty pieces are dropped. */
  function RubySplit(s: string, sep: char): seq<string>
  {
    DropTrailingEmpty(Segments(s, sep))
  }

  // ---------------------------------------------------------------------
  // String#<=>: lexicographic by character, a proper prefix sorting first

  predicate StrLess(a: string, b: string) {
    if b == [] then false
    else if a == [] then true
    else if a[0] != b[0] then a[0] < b[0]
    else StrLess(a[1..], b[1..])
  }

  predicate StrLeq(a: string, b: string) {
    !StrLess(b, a)
  }

  lemma {:induction false} StrLessIrreflexive(a: string)
    ensures !StrLess(a, a)
  {
    if a != [] {
      StrLessIrreflexive(a[1..]);
    }
  }

  /** The comparison is transitive across a `<` and a `<=`. */
  lemma {:induction false} StrLessLeqTrans(a: string, b: string, c: string)
    requires StrLess(a, b) && StrLeq(b, c)
    ensures StrLess(a, c)
  {
    if a != [] && b != [] && c != [] && a[0] == b[0] && b[0] == c[0] {
      StrLessLeqTrans(a[1..], b[1..], c[1..]);
    }
  }

  /** String order is not numeric order: "1500" sorts between "100" and "200". */
  lemma {:induction false} StringOrderIsNotNumeric()
    ensures StrLeq("100", "1500") && StrLeq("1500", "200")
    ensures StrLess("900", "1000") == false
  {
    assert "1500"[1..] == "500";
    assert "100"[1..] == "00";
  }

  // ---------------------------------------------------------------------
  // Integers and text

  predicate IsDigit(c: char) {
    '0' <= c <= '9'
  }

  predicate AllDigits(s: string) {
    forall i :: 0 <= i < |s| ==> IsDigit(s[i])
  }

  function DigitChar(d: nat): (c: char)
    requires d < 10
    ensures IsDigit(c)
  {
    ('0' as int + d) as char
  }

  function DigitValue(c: char): (d: nat)
    requires IsDigit(c)
    ensures d < 10 && DigitChar(d) == c
  {
    (c as int - '0' as int) as nat
  }

  /** Length of the run of decimal digits that starts `s`. */
  function LeadingDigits(s: string): (n: nat)
    ensures n <= |s|
    ensures AllDigits(s[..n])
    ensures n == |s| || !IsDigit(s[n])
  {
    if s == [] || !IsDigit(s[0]) then 0 else 1 + LeadingDigits(s[1..])
  }

  function DigitsValue(d: string): nat
    requires AllDigits(d)
  {
    if d == [] then 0 else 10 * DigitsValue(d[..|d| - 1]) + DigitValue(d[|d| - 1])
  }

  function UnsignedPrefixValue(s: string): nat {
    DigitsValue(s[..LeadingDigits(s)])
  }

  /** `s.to_i`: an optional sign and the digits that follow it; 0 when there are none. */
  function ToI(s: string): int {
    if s != [] && s[0] == '-' then -(UnsignedPrefixValue(s[1..]) as int)
    else if s != [] && s[0] == '+' then UnsignedPrefixValue(s[1..])
    else UnsignedPrefixValue(s)
  }

  function NatToString(n: nat): (r: string)
    ensures r != [] && AllDigits(r)
  {
    if n < 10 then [DigitChar(n)] else NatToString(n / 10) + [DigitChar(n % 10)]
  }

  /** `"#{i}"` for an Integer. */
  function IntToString(i: int): (r: string)
    ensures r != [] && NoSpace(r) && '/' !in r
  {
    var r := if i < 0 then "-" + NatToString(-i) else NatToString(i);
    assert forall k :: 0 <= k < |r| ==> r[k] == '-' || IsDigit(r[k]);
    r
  }

  lemma {:induction false} NatToStringValue(n: nat)
    ensures DigitsValue(NatToString(n)) == n
  {
    if n >= 10 {
      NatToStringValue(n / 10);
      var s := NatToString(n / 10) + [DigitChar(n % 10)];
      assert s[..|s| - 1] == NatToString(n / 10);
    }
  }

  lemma {:induction false} NatToStringPrefix(n: nat)
    ensures LeadingDigits(NatToString(n)) == |NatToString(n)|
  {
    var s := NatToString(n);
    assert s[..|s|] == s;
  }

  /** Reading back an interpolated integer with `to_i` gives the integer. */
  lemma {:induction false} UnsignedOfNatToString(n: nat)
    ensures UnsignedPrefixValue(NatToString(n)) == n
  {
    var s := NatToString(n);
    NatToStringPrefix(n);
    assert s[..LeadingDigits(s)] == s;
    NatToStringValue(n);
  }

  /** `to_i` of a digit string is its value: no sign to read. */
  lemma {:induction false} ToIOfNatToString(n: nat)
    ensures ToI(NatToString(n)) == n
  {
    var d := NatToString(n);
    assert IsDigit(d[0]);
    UnsignedOfNatToString(n);
  }

  /** `to_i` reads a leading minus sign. */
  lemma {:induction false} ToIOfNegated(n: nat)
    ensures ToI("-" + NatToString(n)) == -(n as int)
  {
    var d := NatToString(n);
    var s := "-" + d;
    assert s[0] == '-' && s[1..] == d;
    UnsignedOfNatToString(n);
  }

  lemma {:induction false} ToIOfIntToString(i: int)
    ensures ToI(IntToString(i)) == i
  {
    if i < 0 {
      assert IntToString(i) == "-" + NatToString(-i);
      ToIOfNegated(-i);
    } else {
      assert IntToString(i) == NatToString(i);
      ToIOfNatToString(i);
    }
  }

  // ---------------------------------------------------------------------
  // Prefixes and case-insensitive search

  predicate StartsWith(s: string, prefix: string) {
    |prefix| <= |s| && s[..|prefix|] == prefix
  }

  /** ASCII case folding. */
  function Lower(c: char): char {
    if 'A' <= c <= 'Z' then (c as int + 32) as char else c
  }

  function LowerAll(s: string): (r: string)
    ensures |r| == |s|
    ensures forall i :: 0 <= i < |s| ==> r[i] == Lower(s[i])
  {
    if s == [] then [] else [Lower(s[0])] + LowerAll(s[1..])
  }

  /** `s` starts with `pat` when case is ignored; `pat` is written in lower case. */
  predicate StartsWithIgnoringCase(s: string, pat: string) {
    |pat| <= |s| && forall i :: 0 <= i < |pat| ==> Lower(s[i]) == pat[i]
  }

  /** `s =~ /pat/i` for a literal lower-case pattern: a match anywhere. */
  predicate ContainsIgnoringCase(s: string, pat: string)
    decreases |s|
  {
    StartsWithIgnoringCase(s, pat) || (s != [] && ContainsIgnoringCase(s[1..], pat))
  }

  /** The search is unanchored: it succeeds exactly when some position matches. */
  lemma {:induction false} ContainsIgnoringCaseAt(s: string, pat: string)
    ensures ContainsIgnoringCase(s, pat) <==>
            exists i :: 0 <= i <= |s| && StartsWithIgnoringCase(s[i..], pat)
    decreases |s|
  {
    assert s[0..] == s;
    if s != [] {
      ContainsIgnoringCaseAt(s[1..], pat);
      if ContainsIgnoringCase(s[1..], pat) {
        var i :| 0 <= i <= |s[1..]| && StartsWithIgnoringCase(s[1..][i..], pat);
        assert s[1..][i..] == s[i + 1..];
      }
      if exists i :: 0 <= i <= |s| && StartsWithIgnoringCase(s[i..], pat) {
        var i :| 0 <= i <= |s| && StartsWithIgnoringCase(s[i..], pat);
        if i > 0 {
          assert s[1..][i - 1..] == s[i..];
        } else {
          assert s[i..] == s;
        }
      }
    } else {
      if exists i :: 0 <= i <= |s| && StartsWithIgnoringCase(s[i..], pat) {
        var i :| 0 <= i <= |s| && StartsWithIgnoringCase(s[i..], pat);
        assert s[i..] == s;
      }
    }
  }

  /** Text around a match never hides it. */
  lemma {:induction false} ContainsIgnoringCaseWithin(a: string, s: string, b: string, pat: string)
    requires ContainsIgnoringCase(s, pat)
    ensures ContainsIgnoringCase(a + s + b, pat)
  {
    ContainsIgnoringCaseAt(s, pat);
    var i :| 0 <= i <= |s| && StartsWithIgnoringCase(s[i..], pat);
    var t := a + s + b;
    assert forall k :: 0 <= k < |pat| ==> t[|a| + i..][k] == s[i..][k];
    assert StartsWithIgnoringCase(t[|a| + i..], pat);
    ContainsIgnoringCaseAt(t, pat);
  }

  /** Only the case-folded text matters. */
  lemma {:induction false} ContainsIgnoringCaseOfLower(s: string, pat: string)
    ensures ContainsIgnoringCase(LowerAll(s), pat) == ContainsIgnoringCase(s, pat)
    decreases |s|
  {
    var l := LowerAll(s);
    SameFolding(l, s, pat);
    if s != [] {
      assert l[1..] == LowerAll(s[1..]);
      ContainsIgnoringCaseOfLower(s[1..], pat);
    }
  }

  lemma {:induction false} SameFolding(s: string, t: string, pat: string)
    requires |s| == |t| && forall k :: 0 <= k < |s| ==> Lower(s[k]) == Lower(t[k])
    ensures StartsWithIgnoringCase(s, pat) == StartsWithIgnoringCase(t, pat)
  {
  }
}
