/**
 * Python string operations used throughout the system, over `seq<char>`.
 * Character classes are the ASCII ones: `\s` / `str.isspace()` is the ASCII
 * whitespace set, `\d` the ASCII digits, and case folding is ASCII only.
 */
module Strings {
  import opened Wrappers

  // ---------------------------------------------------------------------------
  // Character classes
  // ---------------------------------------------------------------------------

  /** ASCII whitespace as `str.isspace()` and the regex class `\s` see it: space, \t \n \v \f \r and \x1c-\x1f. */
  predicate IsSpace(c: char) {
    var o := c as int;
    o == 32 || 9 <= o <= 13 || 28 <= o <= 31
  }

  predicate IsDigit(c: char) { '0' <= c <= '9' }

  predicate AllDigits(s: string) { forall i :: 0 <= i < |s| ==> IsDigit(s[i]) }

  predicate AllSpace(s: string) { forall i :: 0 <= i < |s| ==> IsSpace(s[i]) }

  function DigitVal(c: char): (d: nat)
    requires IsDigit(c)
    ensures d < 10
  {
    (c as int) - ('0' as int)
  }

  function DigitChar(d: nat): (c: char)
    requires d < 10
    ensures IsDigit(c) && DigitVal(c) == d
  {
    (('0' as int) + d) as char
  }

  function LowerChar(c: char): (r: char)
    ensures 'A' <= c <= 'Z' ==> r as int == c as int + 32
    ensures !('A' <= c <= 'Z') ==> r == c
  {
    if 'A' <= c <= 'Z' then ((c as int) + 32) as char else c
  }

  function UpperChar(c: char): (r: char)
    ensures 'a' <= c <= 'z' ==> r as int == c as int - 32
    ensures !('a' <= c <= 'z') ==> r == c
  {
    if 'a' <= c <= 'z' then ((c as int) - 32) as char else c
  }

  /** `s.lower()` (ASCII letters only). */
  function Lower(s: string): (r: string)
    ensures |r| == |s|
    ensures forall i :: 0 <= i < |s| ==> r[i] == LowerChar(s[i])
  {
    if s == [] then [] else [LowerChar(s[0])] + Lower(s[1..])
  }

  /** `s.capitalize()`: first character upper-cased, the rest lower-cased (ASCII letters only). */
  function Capitalize(s: string): (r: string)
    ensures |r| == |s|
    ensures |s| > 0 ==> r[0] == UpperChar(s[0]) && r[1..] == Lower(s[1..])
  {
    if s == [] then [] else [UpperChar(s[0])] + Lower(s[1..])
  }

  // ---------------------------------------------------------------------------
  // Whitespace stripping
  // ---------------------------------------------------------------------------

  function StripLeft(s: string): (r: string)
    ensures |r| <= |s| && r == s[|s| - |r|..]
    ensures AllSpace(s[..|s| - |r|])
    ensures r == [] || !IsSpace(r[0])
  {
    if s != [] && IsSpace(s[0]) then
      var t := StripLeft(s[1..]);
      assert s[..|s| - |t|] == [s[0]] + s[1..][..|s| - 1 - |t|];
      t
    else s
  }

  function StripRight(s: string): (r: string)
    ensures |r| <= |s| && r == s[..|r|]
    ensures AllSpace(s[|r|..])
    ensures r == [] || !IsSpace(r[|r| - 1])
  {
    if s != [] && IsSpace(s[|s| - 1]) then
      var t := StripRight(s[..|s| - 1]);
      assert s[|t|..] == s[..|s| - 1][|t|..] + [s[|s| - 1]];
      t
    else s
  }

  /** `s.strip()`: the input without its leading and trailing whitespace. */
  function Strip(s: string): (r: string)
    ensures |r| <= |s|
    ensures r == [] || (!IsSpace(r[0]) && !IsSpace(r[|r| - 1]))
    ensures AllSpace(s) ==> r == []
    ensures s == [] || (!IsSpace(s[0]) && !IsSpace(s[|s| - 1])) ==> r == s
  {
    StripEnds(s);
    StripAllSpace(s);
    StripPlainText(s);
    StripRight(StripLeft(s))
  }

  lemma StripEnds(s: string)
    ensures var r := StripRight(StripLeft(s)); r == [] || (!IsSpace(r[0]) && !IsSpace(r[|r| - 1]))
  {
    var l := StripLeft(s);
    var r := StripRight(l);
    if r != [] {
      assert r == l[..|r|];
      assert r[0] == l[0];
    }
  }

  lemma {:induction false} StripAllSpace(s: string)
    ensures AllSpace(s) ==> StripLeft(s) == []
  {
    if s != [] && AllSpace(s) {
      assert IsSpace(s[0]);
      assert AllSpace(s[1..]) by {
        forall i | 0 <= i < |s| - 1 ensures IsSpace(s[1..][i]) {
          assert s[1..][i] == s[i + 1];
        }
      }
      StripAllSpace(s[1..]);
    }
  }

  lemma StripPlainText(s: string)
    ensures s == [] || (!IsSpace(s[0]) && !IsSpace(s[|s| - 1])) ==> StripRight(StripLeft(s)) == s
  {
  }


  /** Stripping only removes characters: a character absent from `s` is absent from `s.strip()`. */
  lemma StripKeepsOut(s: string, c: char)
    requires c !in s
    ensures c !in Strip(s)
  {
    var l := StripLeft(s);
    assert forall x :: x in l ==> x in s by {
      assert l == s[|s| - |l|..];
    }
    var r := StripRight(l);
    assert forall x :: x in r ==> x in l by {
      assert r == l[..|r|];
    }
  }

  // ---------------------------------------------------------------------------
  // Substrings
  // ---------------------------------------------------------------------------

  predicate IsPrefix(p: string, s: string) { |p| <= |s| && s[..|p|] == p }

  predicate IsSuffix(p: string, s: string) { |p| <= |s| && s[|s| - |p|..] == p }

  /** `sub` occurs in `s` starting at index `i`. */
  predicate OccursAt(s: string, sub: string, i: int) {
    0 <= i && i + |sub| <= |s| && s[i..i + |sub|] == sub
  }

  /** The first index at or after `i` where `sub` occurs (`s.find(sub, i)`). */
  function FindFrom(s: string, sub: string, i: nat): (r: Option<nat>)
    requires i <= |s|
    decreases |s| - i
    ensures r.Some? ==> i <= r.value && OccursAt(s, sub, r.value)
    ensures r.Some? ==> forall k :: i <= k < r.value ==> !OccursAt(s, sub, k)
    ensures r.None? ==> forall k :: i <= k ==> !OccursAt(s, sub, k)
  {
    if OccursAt(s, sub, i) then Some(i)
    else if i + |sub| >= |s| then None
    else FindFrom(s, sub, i + 1)
  }

  /** `sub in s`. */
  predicate Contains(s: string, sub: string) { FindFrom(s, sub, 0).Some? }

  lemma ContainsIff(s: string, sub: string)
    ensures Contains(s, sub) <==> exists k :: OccursAt(s, sub, k)
  {
    if exists k :: OccursAt(s, sub, k) {
      var k :| OccursAt(s, sub, k);
      assert FindFrom(s, sub, 0).Some?;
    }
  }

  lemma OccursInContains(s: string, sub: string, k: int)
    requires OccursAt(s, sub, k)
    ensures Contains(s, sub)
  {
    ContainsIff(s, sub);
  }

  /** A single-character occurrence is the character itself. */
  lemma OccursAtChar(s: string, c: char, k: int)
    ensures OccursAt(s, [c], k) <==> 0 <= k < |s| && s[k] == c
  {
    if 0 <= k < |s| {
      assert s[k..k + 1] == [s[k]];
    }
  }

  lemma ContainsChar(s: string, c: char)
    ensures Contains(s, [c]) <==> c in s
  {
    ContainsIff(s, [c]);
    if c in s {
      var k :| 0 <= k < |s| && s[k] == c;
      OccursAtChar(s, c, k);
    }
    if Contains(s, [c]) {
      var k :| OccursAt(s, [c], k);
      OccursAtChar(s, c, k);
    }
  }

  /** The end of the run of digits starting at `i` (`\d*`, taken greedily). */
  function DigitRunEnd(s: string, i: nat): (r: nat)
    requires i <= |s|
    decreases |s| - i
    ensures i <= r <= |s|
    ensures forall k :: i <= k < r ==> IsDigit(s[k])
    ensures r < |s| ==> !IsDigit(s[r])
  {
    if i == |s| || !IsDigit(s[i]) then i else DigitRunEnd(s, i + 1)
  }

  /** The end of the run of whitespace starting at `i` (`\s*`, taken greedily). */
  function SpaceRunEnd(s: string, i: nat): (r: nat)
    requires i <= |s|
    decreases |s| - i
    ensures i <= r <= |s|
    ensures forall k :: i <= k < r ==> IsSpace(s[k])
    ensures r < |s| ==> !IsSpace(s[r])
  {
    if i == |s| || !IsSpace(s[i]) then i else SpaceRunEnd(s, i + 1)
  }

  // ---------------------------------------------------------------------------
  // split / join / replace
  // ---------------------------------------------------------------------------

  /** `s.split(sep)` for a non-empty separator: the pieces between non-overlapping occurrences, leftmost first. */
  function Split(s: string, sep: string): (r: seq<string>)
    requires |sep| > 0
    ensures |r| >= 1
    decreases |s|
  {
    match FindFrom(s, sep, 0)
    case None => [s]
    case Some(i) => [s[..i]] + Split(s[i + |sep|..], sep)
  }

  /** `sep.join(parts)`. */
  function Join(parts: seq<string>, sep: string): string
  {
    if |parts| == 0 then []
    else if |parts| == 1 then parts[0]
    else parts[0] + sep + Join(parts[1..], sep)
  }

  /** `old` does not occur in `s` exactly when `s.split(old)` is the single piece `[s]`. */
  lemma SplitSingle(s: string, sep: string)
    requires |sep| > 0
    ensures !Contains(s, sep) <==> Split(s, sep) == [s]
  {
    if Contains(s, sep) {
      var i := FindFrom(s, sep, 0).value;
      assert Split(s, sep) == [s[..i]] + Split(s[i + |sep|..], sep);
    }
  }

  /** The first occurrence of `sep` cuts `s` into the first piece and the rest. */
  lemma SplitAtFirst(s: string, sep: string, i: nat)
    requires |sep| > 0 && i <= |s| && FindFrom(s, sep, 0) == Some(i)
    ensures i + |sep| <= |s|
    ensures Split(s, sep) == [s[..i]] + Split(s[i + |sep|..], sep)
    ensures s == s[..i] + sep + s[i + |sep|..]
  {
    assert s[i..i + |sep|] == sep;
    assert s == s[..i] + s[i..i + |sep|] + s[i + |sep|..];
  }

  /** Joining a piece in front of at least one more adds the separator between them. */
  lemma JoinCons(x: string, tail: seq<string>, sep: string)
    requires |tail| >= 1
    ensures Join([x] + tail, sep) == x + sep + Join(tail, sep)
  {
    assert ([x] + tail)[1..] == tail;
  }

  /** Splitting and re-joining with the same separator gives the string back. */
  lemma {:induction false} JoinSplit(s: string, sep: string)
    requires |sep| > 0
    ensures Join(Split(s, sep), sep) == s
    decreases |s|
  {
    var f := FindFrom(s, sep, 0);
    if f.Some? {
      var i := f.value;
      var rest := s[i + |sep|..];
      SplitAtFirst(s, sep, i);
      JoinSplit(rest, sep);
      JoinCons(s[..i], Split(rest, sep), sep);
    }
  }

  /** Joining one more piece appends the separator and the piece. */
  lemma {:induction false} JoinSnoc(parts: seq<string>, x: string, sep: string)
    requires |parts| >= 1
    ensures Join(parts + [x], sep) == Join(parts, sep) + sep + x
    decreases |parts|
  {
    if |parts| == 1 {
      assert (parts + [x])[1..] == [x];
    } else {
      assert (parts + [x])[1..] == parts[1..] + [x];
      JoinSnoc(parts[1..], x, sep);
    }
  }

  /** An occurrence starts with the first character of what occurs. */
  lemma OccursAtHead(s: string, sub: string, k: int)
    requires |sub| > 0
    ensures OccursAt(s, sub, k) ==> s[k] == sub[0]
  {
    if OccursAt(s, sub, k) {
      assert s[k..k + |sub|][0] == sub[0];
    }
  }

  /** A string without the first character of `sub` holds no occurrence of it. */
  lemma AbsentHead(s: string, sub: string)
    requires |sub| > 0 && sub[0] !in s
    ensures forall k :: !OccursAt(s, sub, k)
  {
    forall k ensures !OccursAt(s, sub, k) {
      OccursAtHead(s, sub, k);
    }
  }

  /** When the text before a separator lacks the separator's first character, splitting takes that text off the front. */
  lemma SplitAfterFree(x: string, sep: string, y: string)
    requires |sep| > 0 && sep[0] !in x
    ensures Split(x + sep + y, sep) == [x] + Split(y, sep)
  {
    forall k | 0 <= k < |x| ensures !OccursAt(x + sep + y, sep, k) {
      OccursAtHead(x + sep + y, sep, k);
      assert (x + sep + y)[k] == x[k];
    }
    SplitFirst(x, sep, y);
  }

  /** In the same case the separator is found, and the second piece is the first piece of what follows it. */
  lemma FoundAfterFree(x: string, sep: string, y: string)
    requires |sep| > 0 && sep[0] !in x
    ensures Contains(x + sep + y, sep)
    ensures |Split(x + sep + y, sep)| >= 2 && Split(x + sep + y, sep)[1] == Split(y, sep)[0]
  {
    SplitAfterFree(x, sep, y);
    assert OccursAt(x + sep + y, sep, |x|) by {
      assert (x + sep + y)[|x|..|x| + |sep|] == sep;
    }
    OccursInContains(x + sep + y, sep, |x|);
  }

  /** The first piece is the text before the separator, which itself splits into just itself. */
  lemma FirstPieceFree(x: string, sep: string, y: string)
    requires |sep| > 0 && sep[0] !in x
    ensures Split(x + sep + y, sep)[0] == x
    ensures Split(x, sep) == [x]
  {
    SplitAfterFree(x, sep, y);
    AbsentHead(x, sep);
    SplitAbsent(x, sep);
  }

  /** Moving the head `b` of `y` across to the end of `a`. */
  lemma Regroup(x: string, a: string, b: string, y: string)
    requires |b| <= |y| && y[..|b|] == b
    ensures x + a + y == x + (a + b) + y[|b|..]
  {
    assert y == b + y[|b|..];
  }

  /** Two pieces free of the separator's first character split apart again. */
  lemma SplitPair(a: string, sep: string, b: string)
    requires |sep| > 0 && sep[0] !in a && sep[0] !in b
    ensures Split(a + sep + b, sep) == [a, b]
  {
    SplitAfterFree(a, sep, b);
    AbsentHead(b, sep);
    SplitAbsent(b, sep);
  }

  /** Joining pieces that never hold the separator's first character and splitting again gives the pieces back. */
  lemma {:induction false} SplitJoin(parts: seq<string>, sep: string)
    requires |parts| >= 1 && |sep| > 0
    requires forall k :: 0 <= k < |parts| ==> sep[0] !in parts[k]
    ensures Split(Join(parts, sep), sep) == parts
    decreases |parts|
  {
    var s := Join(parts, sep);
    if |parts| == 1 {
      assert s == parts[0];
      AbsentHead(s, sep);
      SplitAbsent(s, sep);
    } else {
      var p := parts[0];
      var t := Join(parts[1..], sep);
      assert s == p + sep + t;
      NoOccurInPrefix(p, sep, t);
      SplitFirst(p, sep, t);
      SplitJoin(parts[1..], sep);
      assert parts == [p] + parts[1..];
    }
  }

  /** `s.replace(target, replacement)` for a non-empty `target`, which equals `replacement.join(s.split(target))`. */
  function Replace(s: string, target: string, replacement: string): (r: string)
    requires |target| > 0
    ensures !Contains(s, target) ==> r == s
  {
    SplitSingle(s, target);
    Join(Split(s, target), replacement)
  }

  /** `re.split("[...]", s)` for a character class: the pieces between single separator characters. */
  function SplitOnChars(s: string, seps: set<char>): (r: seq<string>)
    ensures |r| >= 1
    ensures forall i :: 0 <= i < |r| ==> forall j :: 0 <= j < |r[i]| ==> r[i][j] !in seps
    ensures (forall j :: 0 <= j < |s| ==> s[j] !in seps) ==> r == [s]
  {
    if s == [] then [[]]
    else
      var rest := SplitOnChars(s[1..], seps);
      if s[0] in seps then [[]] + rest
      else
        var head := [s[0]] + rest[0];
        assert forall j :: 0 < j < |head| ==> head[j] == rest[0][j - 1];
        assert (forall j :: 0 <= j < |s| ==> s[j] !in seps) ==> rest == [s[1..]] && head == s;
        [head] + rest[1..]
  }

  /** `sep` occurring in `s` gives at least two pieces. */
  lemma SplitContains(s: string, sep: string)
    requires |sep| > 0 && Contains(s, sep)
    ensures |Split(s, sep)| >= 2
  {
    var i := FindFrom(s, sep, 0).value;
    assert Split(s, sep) == [s[..i]] + Split(s[i + |sep|..], sep);
  }

  /** When the first occurrence of `sep` comes right after `x`, splitting takes `x` off the front. */
  lemma SplitFirst(x: string, sep: string, y: string)
    requires |sep| > 0
    requires forall k :: 0 <= k < |x| ==> !OccursAt(x + sep + y, sep, k)
    ensures Split(x + sep + y, sep) == [x] + Split(y, sep)
  {
    var s := x + sep + y;
    assert s[|x|..|x| + |sep|] == sep;
    assert OccursAt(s, sep, |x|);
    assert FindFrom(s, sep, 0) == Some(|x|);
    assert s[..|x|] == x;
    assert s[|x| + |sep|..] == y;
  }

  /** A string without the separator is a single piece. */
  lemma SplitAbsent(s: string, sep: string)
    requires |sep| > 0
    requires forall k :: !OccursAt(s, sep, k)
    ensures Split(s, sep) == [s]
  {
    ContainsIff(s, sep);
    SplitSingle(s, sep);
  }

  /** No occurrence of a separator starts inside a prefix that lacks its first character. */
  lemma NoOccurInPrefix(a: string, sep: string, b: string)
    requires |sep| > 0 && sep[0] !in a
    ensures forall k :: 0 <= k < |a| ==> !OccursAt(a + sep + b, sep, k)
  {
    var t := a + sep + b;
    forall k | 0 <= k < |a| ensures !OccursAt(t, sep, k) {
      if k + |sep| <= |t| {
        assert t[k..k + |sep|][0] == t[k] == a[k];
      }
    }
  }

  /** A separator occurring once splits the text in two. */
  lemma SplitOnce(a: string, sep: string, b: string)
    requires |sep| > 0 && sep[0] !in a && sep[0] !in b
    ensures Split(a + sep + b, sep) == [a, b]
  {
    NoOccurInPrefix(a, sep, b);
    SplitFirst(a, sep, b);
    AbsentHead(b, sep);
    SplitAbsent(b, sep);
  }

  function SumLengths(parts: seq<string>): nat
  {
    if parts == [] then 0 else |parts[0]| + SumLengths(parts[1..])
  }

  lemma {:induction false} JoinLength(parts: seq<string>, sep: string)
    requires |parts| >= 1
    ensures |Join(parts, sep)| == SumLengths(parts) + (|parts| - 1) * |sep|
  {
    if |parts| > 1 {
      JoinLength(parts[1..], sep);
    }
  }

  /**
   * `replace` changes the length by the difference of the two texts at each
   * of the non-overlapping occurrences found by `split`.
   */
  lemma ReplaceLength(s: string, target: string, replacement: string)
    requires |target| > 0
    ensures var n := |Split(s, target)| - 1;
      |Replace(s, target, replacement)| + n * |target| == |s| + n * |replacement|
  {
    var parts := Split(s, target);
    var n := |parts| - 1;
    JoinSplit(s, target);
    JoinLength(parts, target);
    JoinLength(parts, replacement);
    LengthTrade(|s|, |Replace(s, target, replacement)|, SumLengths(parts), n, |target|, |replacement|);
  }

  /** Two texts built from the same pieces with `n` different separators differ by the separators. */
  lemma LengthTrade(before: nat, after: nat, pieces: nat, n: int, old_sep: nat, new_sep: nat)
    requires before == pieces + n * old_sep
    requires after == pieces + n * new_sep
    ensures after + n * old_sep == before + n * new_sep
  {
  }

  /** Replacing a whole text gives the replacement. */
  lemma ReplaceWhole(target: string, replacement: string)
    requires |target| > 0
    ensures Replace(target, target, replacement) == replacement
  {
    SplitFirst("", target, "");
    assert "" + target + "" == target;
    assert FindFrom("", target, 0) == None;
    assert Split(target, target) == ["", ""];
    assert Join(["", ""], replacement) == "" + replacement + "";
  }

  // ---------------------------------------------------------------------------
  // Numbers as text
  // ---------------------------------------------------------------------------

  /** The value of a string of decimal digits (`int(...)` of a digit run). */
  function DigitsValue(s: string): nat
    requires AllDigits(s)
  {
    if s == [] then 0 else DigitsValue(s[..|s| - 1]) * 10 + DigitVal(s[|s| - 1])
  }

  /** Decimal rendering of a natural number (`str(n)`). */
  function NatToString(n: nat): (r: string)
    ensures |r| >= 1 && AllDigits(r)
    ensures |r| > 1 ==> r[0] != '0'
  {
    if n < 10 then [DigitChar(n)] else NatToString(n / 10) + [DigitChar(n % 10)]
  }

  /** Decimal rendering of an integer (`str(i)`, `f"{i}"`). */
  function IntToString(i: int): (r: string)
    ensures |r| >= 1
    ensures i < 0 <==> r[0] == '-'
  {
    if i < 0 then "-" + NatToString(-i) else NatToString(i)
  }

  /** `str(i)` is a minus sign and digits. */
  lemma IntToStringChars(i: int)
    ensures forall k :: 0 <= k < |IntToString(i)| ==> IntToString(i)[k] == '-' || IsDigit(IntToString(i)[k])
  {
    if i < 0 {
      var d := NatToString(-i);
      forall k | 0 < k < |IntToString(i)| ensures IsDigit(IntToString(i)[k]) {
        assert IntToString(i)[k] == d[k - 1];
      }
    }
  }

  /** `int(str(i)) == i`. */
  lemma IntToStringParse(i: int)
    ensures ParseInt(IntToString(i)) == Some(i)
  {
    var s := IntToString(i);
    var n := if i < 0 then -i else i;
    NatToStringValue(n);
    var d := NatToString(n);
    assert !IsSpace(s[0]) && !IsSpace(s[|s| - 1]) by {
      assert s[|s| - 1] == d[|d| - 1];
      assert IsDigit(d[|d| - 1]);
    }
    assert Strip(s) == s;
    assert SplitSign(s).1 == d;
  }

  /** Reading the rendering back gives the number. */
  lemma {:induction false} NatToStringValue(n: nat)
    ensures DigitsValue(NatToString(n)) == n
  {
    if n >= 10 {
      NatToStringValue(n / 10);
      var r := NatToString(n);
      assert r[..|r| - 1] == NatToString(n / 10);
    }
  }

  /** Distinct numbers render differently. */
  lemma NatToStringInjective(m: nat, n: nat)
    requires NatToString(m) == NatToString(n)
    ensures m == n
  {
    NatToStringValue(m);
    NatToStringValue(n);
  }

  function Pow10(k: nat): (p: nat)
    ensures p >= 1
  {
    if k == 0 then 1 else 10 * Pow10(k - 1)
  }

  /** Drops one leading '+' or '-' and reports whether the number is negative. */
  function SplitSign(t: string): (r: (bool, string))
    ensures r.1 == (if t != [] && (t[0] == '+' || t[0] == '-') then t[1..] else t)
    ensures r.0 <==> t != [] && t[0] == '-'
  {
    if t != [] && (t[0] == '+' || t[0] == '-') then (t[0] == '-', t[1..]) else (false, t)
  }

  /** `s.strip()` is a slice of `s`. */
  lemma StripIsSlice(s: string) returns (l: nat)
    ensures l + |Strip(s)| <= |s| && Strip(s) == s[l..l + |Strip(s)|]
  {
    var lead := StripLeft(s);
    var t := StripRight(lead);
    l := |s| - |lead|;
    assert Strip(s) == t;
    assert t == lead[..|t|];
  }

  /** A character of the unsigned, stripped body is a character of the original string. */
  lemma SignedBodyIndex(s: string, j: nat)
    requires j < |SplitSign(Strip(s)).1|
    ensures exists k :: 0 <= k < |s| && s[k] == SplitSign(Strip(s)).1[j]
  {
    var l := StripIsSlice(s);
    SliceBodyIndex(s, Strip(s), l, j);
  }

  /** A character of the unsigned body of a slice is a character of the whole string. */
  lemma SliceBodyIndex(s: string, t: string, l: nat, j: nat)
    requires l + |t| <= |s| && t == s[l..l + |t|]
    requires j < |SplitSign(t).1|
    ensures exists k :: 0 <= k < |s| && s[k] == SplitSign(t).1[j]
  {
    var i := SignBodyOffset(t, j);
    SliceIndex(s, t, l, i);
  }

  /** A character of the unsigned body sits at a known offset of the signed text. */
  lemma SignBodyOffset(t: string, j: nat) returns (i: nat)
    requires j < |SplitSign(t).1|
    ensures i < |t| && t[i] == SplitSign(t).1[j]
  {
    i := |t| - |SplitSign(t).1| + j;
  }

  /** Indexing a slice is indexing the whole string at the shifted position. */
  lemma SliceIndex(s: string, t: string, l: nat, i: nat)
    requires l + |t| <= |s| && t == s[l..l + |t|] && i < |t|
    ensures l + i < |s| && s[l + i] == t[i]
  {
  }

  /**
   * Python's `int(s)` on the strings it accepts here: optional surrounding
   * whitespace, an optional sign, and one or more ASCII digits. Anything
   * else raises in Python and is `None` here.
   */
  function ParseInt(s: string): (r: Option<int>)
    ensures r.Some? ==> exists k :: 0 <= k < |s| && IsDigit(s[k])
    ensures AllDigits(s) && s != [] ==> r == Some(DigitsValue(s))
  {
    var body := SplitSign(Strip(s)).1;
    if body != [] && AllDigits(body) then
      SignedBodyIndex(s, 0);
      DigitsUnsigned(s);
      Some(if SplitSign(Strip(s)).0 then -(DigitsValue(body) as int) else DigitsValue(body))
    else
      DigitsUnsigned(s);
      None
  }

  /** A plain run of digits is its own stripped, unsigned body. */
  lemma DigitsUnsigned(s: string)
    ensures AllDigits(s) && s != [] ==> SplitSign(Strip(s)) == (false, s)
  {
    if AllDigits(s) && s != [] {
      assert IsDigit(s[0]) && IsDigit(s[|s| - 1]);
      assert Strip(s) == s;
    }
  }

  /**
   * Python's `float(s)` on the plain decimal strings it accepts here:
   * optional surrounding whitespace, an optional sign, digits with at most
   * one '.', and at least one digit. The exponent, `inf`/`nan` and
   * underscore forms that `float` also accepts are not modelled.
   */
  function ParseDecimal(s: string): (r: Option<real>)
  {
    var t := Strip(s);
    var (neg, body) := SplitSign(t);
    var pieces := Split(body, ".");
    if |pieces| <= 2 && AllDigits(pieces[0]) && (|pieces| == 1 || AllDigits(pieces[1]))
       && (pieces[0] != [] || (|pieces| == 2 && pieces[1] != []))
    then
      var whole := DigitsValue(pieces[0]) as real;
      var frac := if |pieces| == 2 then (DigitsValue(pieces[1]) as real) / (Pow10(|pieces[1]|) as real) else 0.0;
      Some(if neg then -(whole + frac) else whole + frac)
    else None
  }

  /** A plain decimal body holds a digit. */
  lemma DecimalBodyHasDigit(body: string) returns (j: nat)
    requires |Split(body, ".")| <= 2
    requires AllDigits(Split(body, ".")[0])
    requires |Split(body, ".")| == 1 || AllDigits(Split(body, ".")[1])
    requires Split(body, ".")[0] != [] || (|Split(body, ".")| == 2 && Split(body, ".")[1] != [])
    ensures j < |body| && IsDigit(body[j])
  {
    var pieces := Split(body, ".");
    JoinSplit(body, ".");
    if pieces[0] != [] {
      if |pieces| == 1 { assert body == pieces[0]; } else { assert body == pieces[0] + "." + pieces[1]; }
      j := 0;
      assert body[j] == pieces[0][0];
    } else {
      assert body == pieces[0] + "." + pieces[1];
      j := |pieces[0]| + 1;
      assert body[j] == pieces[1][0];
    }
  }

  /** Only strings holding a digit read as numbers. */
  lemma ParseDecimalNeedsDigit(s: string)
    requires ParseDecimal(s).Some?
    ensures exists k :: 0 <= k < |s| && IsDigit(s[k])
  {
    var body := SplitSign(Strip(s)).1;
    var pieces := Split(body, ".");
    assert |pieces| <= 2 && AllDigits(pieces[0]) && (|pieces| == 1 || AllDigits(pieces[1]));
    assert pieces[0] != [] || (|pieces| == 2 && pieces[1] != []);
    var j := DecimalBodyHasDigit(body);
    SignedBodyIndex(s, j);
  }


  // ---------------------------------------------------------------------------
  // Ordering, slicing and list phrasing
  // ---------------------------------------------------------------------------

  /** Python's `a < b` on strings: lexicographic by code point, a proper prefix being smaller. */
  predicate LexLess(a: string, b: string)
    decreases |a|
  {
    if a == [] then b != []
    else if b == [] then false
    else if a[0] != b[0] then a[0] < b[0]
    else LexLess(a[1..], b[1..])
  }

  lemma {:induction false} LexLessIrreflexive(a: string)
    ensures !LexLess(a, a)
    decreases |a|
  {
    if a != [] { LexLessIrreflexive(a[1..]); }
  }

  lemma {:induction false} LexLessTransitive(a: string, b: string, c: string)
    requires LexLess(a, b) && LexLess(b, c)
    ensures LexLess(a, c)
    decreases |a|
  {
    if a != [] && b != [] && c != [] && a[0] == b[0] && b[0] == c[0] {
      LexLessTransitive(a[1..], b[1..], c[1..]);
    }
  }

  lemma {:induction false} LexLessTotal(a: string, b: string)
    requires a != b
    ensures LexLess(a, b) || LexLess(b, a)
    decreases |a|
  {
    if a != [] && b != [] && a[0] == b[0] {
      assert a == [a[0]] + a[1..] && b == [b[0]] + b[1..];
      LexLessTotal(a[1..], b[1..]);
    }
  }

  /** Python's `xs[:k]`: a negative `k` counts from the end. */
  function TakePy<T>(xs: seq<T>, k: int): (r: seq<T>)
    ensures 0 <= k ==> |r| == (if k < |xs| then k else |xs|)
    ensures k < 0 ==> |r| == (if |xs| + k > 0 then |xs| + k else 0)
    ensures r == xs[..|r|]
  {
    if k >= 0 then (if k < |xs| then xs[..k] else xs)
    else if |xs| + k > 0 then xs[..|xs| + k] else []
  }

  /** The source's "A, B and C" phrasing: `", ".join(xs[:-1]) + " and " + xs[-1]` for two or more names. */
  function JoinAnd(names: seq<string>): (r: string)
    requires |names| > 0
    ensures |names| == 1 ==> r == names[0]
    ensures |names| >= 2 ==> IsSuffix(" and " + names[|names| - 1], r)
    ensures |names| >= 2 ==> r == Join(names[..|names| - 1], ", ") + " and " + names[|names| - 1]
  {
    if |names| == 1 then names[0]
    else
      var r := Join(names[..|names| - 1], ", ") + " and " + names[|names| - 1];
      assert r[|r| - |" and " + names[|names| - 1]|..] == " and " + names[|names| - 1];
      r
  }

  /** A fixed lead-in before the "A, B and C" phrase. */
  lemma LeadJoinAnd(lead: string, names: seq<string>)
    requires |names| >= 2
    ensures lead + JoinAnd(names) == lead + Join(names[..|names| - 1], ", ") + " and " + names[|names| - 1]
  {
    var j := Join(names[..|names| - 1], ", ");
    ConcatAssoc(lead, j + " and ", names[|names| - 1]);
    ConcatAssoc(lead, j, " and ");
  }

  lemma ConcatAssoc<T>(a: seq<T>, b: seq<T>, c: seq<T>)
    ensures a + (b + c) == (a + b) + c
  {
  }

  function Min(a: int, b: int): int { if a <= b then a else b }

  /** Three names read "A, B and C"; two read "A and B". */
  lemma JoinAndShapes(a: string, b: string, c: string)
    ensures JoinAnd([a, b]) == a + " and " + b
    ensures JoinAnd([a, b, c]) == a + ", " + b + " and " + c
  {
    assert [a, b][..1] == [a];
    assert [a, b, c][..2] == [a, b];
    JoinCons(a, [b], ", ");
  }

  // ---------------------------------------------------------------------------
  // Python's repr of strings and lists of strings
  // ---------------------------------------------------------------------------

  /** The quote `repr` puts around a string: `"` when it holds `'` and no `"`, otherwise `'`. */
  function ReprQuote(s: string): (q: char)
    ensures q == '\'' || q == '"'
  {
    if '\'' in s && '"' !in s then '"' else '\''
  }

  const HexDigits := "0123456789abcdef"

  /** One character as `repr` writes it inside the quote `q`; non-ASCII characters are kept as they are. */
  function ReprChar(c: char, q: char): (r: string)
    ensures 1 <= |r| <= 4
    ensures r[0] == '\\' || r == [c]
  {
    if c == q || c == '\\' then ['\\', c]
    else if c == '\t' then "\\t"
    else if c == '\n' then "\\n"
    else if c == '\r' then "\\r"
    else if c < ' ' || c == '\U{7F}' then "\\x" + [HexDigits[c as int / 16], HexDigits[c as int % 16]]
    else [c]
  }

  function ReprBody(s: string, q: char): (r: string)
    ensures |r| >= |s|
  {
    if s == [] then [] else ReprChar(s[0], q) + ReprBody(s[1..], q)
  }

  /** `repr(s)`: the quoted, escaped text. */
  function StrRepr(s: string): (r: string)
    ensures |r| >= |s| + 2
    ensures r[0] == ReprQuote(s) && r[|r| - 1] == ReprQuote(s)
    ensures r[1..|r| - 1] == ReprBody(s, ReprQuote(s))
  {
    var q := ReprQuote(s);
    [q] + ReprBody(s, q) + [q]
  }

  function Reprs(xs: seq<string>): (r: seq<string>)
    ensures |r| == |xs|
    ensures forall i :: 0 <= i < |xs| ==> r[i] == StrRepr(xs[i])
  {
    if xs == [] then [] else [StrRepr(xs[0])] + Reprs(xs[1..])
  }

  /** `str(xs)` for a list of strings: the items' reprs between brackets, separated by ", ". */
  function ListRepr(xs: seq<string>): (r: string)
    ensures |r| >= 2 && r[0] == '[' && r[|r| - 1] == ']'
    ensures xs == [] ==> r == "[]"
    ensures |xs| == 1 ==> r == "[" + StrRepr(xs[0]) + "]"
  {
    "[" + Join(Reprs(xs), ", ") + "]"
  }

  /** No quote, backslash or control character: `repr` leaves such a text as it is. */
  predicate PlainText(s: string)
  {
    forall i :: 0 <= i < |s| ==> ' ' <= s[i] && s[i] != '\'' && s[i] != '\\' && s[i] != '\U{7F}'
  }

  /** A plain text is simply put between single quotes. */
  lemma {:induction false} PlainRepr(s: string)
    requires PlainText(s)
    ensures StrRepr(s) == "'" + s + "'"
  {
    PlainReprBody(s, '\'');
  }

  lemma {:induction false} PlainReprBody(s: string, q: char)
    requires forall i :: 0 <= i < |s| ==> ' ' <= s[i] && s[i] != q && s[i] != '\\' && s[i] != '\U{7F}'
    ensures ReprBody(s, q) == s
  {
    if s != [] {
      PlainReprBody(s[1..], q);
      assert s == [s[0]] + s[1..];
    }
  }

  /** The value of a lower-case hexadecimal digit. */
  function HexValue(d: char): (v: nat)
    ensures v < 16
  {
    if '0' <= d <= '9' then d as int - '0' as int
    else if 'a' <= d <= 'f' then d as int - 'a' as int + 10
    else 0
  }

  /** Reads the inside of a `repr` back: each escape gives the character it stands for. */
  function ReadReprBody(t: string): string
    decreases |t|
  {
    if t == [] then []
    else if t[0] == '\\' && |t| >= 2 then
      if t[1] == 't' then ['\t'] + ReadReprBody(t[2..])
      else if t[1] == 'n' then ['\n'] + ReadReprBody(t[2..])
      else if t[1] == 'r' then ['\r'] + ReadReprBody(t[2..])
      else if t[1] == 'x' && |t| >= 4 then [(HexValue(t[2]) * 16 + HexValue(t[3])) as char] + ReadReprBody(t[4..])
      else [t[1]] + ReadReprBody(t[2..])
    else [t[0]] + ReadReprBody(t[1..])
  }

  lemma HexDigitsRead(k: nat)
    requires k < 16
    ensures HexValue(HexDigits[k]) == k
  {
  }

  /** One written character reads back as itself, whatever follows it. */
  lemma ReadReprChar(c: char, q: char, t: string)
    requires q == '\'' || q == '"'
    ensures ReadReprBody(ReprChar(c, q) + t) == [c] + ReadReprBody(t)
  {
    var w := ReprChar(c, q);
    if c == q || c == '\\' {
      assert (w + t)[2..] == t;
    } else if c == '\t' || c == '\n' || c == '\r' {
      assert (w + t)[2..] == t;
    } else if c < ' ' || c == '\U{7F}' {
      HexDigitsRead(c as int / 16);
      HexDigitsRead(c as int % 16);
      assert (w + t)[4..] == t;
    } else {
      assert (w + t)[1..] == t;
    }
  }

  /** Reading back a written body gives the original text. */
  lemma {:induction false} ReprBodyRoundTrip(s: string, q: char)
    requires q == '\'' || q == '"'
    ensures ReadReprBody(ReprBody(s, q)) == s
  {
    if s != [] {
      ReadReprChar(s[0], q, ReprBody(s[1..], q));
      ReprBodyRoundTrip(s[1..], q);
      assert s == [s[0]] + s[1..];
    }
  }

  /** `repr` loses nothing: the text between the quotes reads back as the string. */
  lemma StrReprRoundTrip(s: string)
    ensures ReadReprBody(StrRepr(s)[1..|StrRepr(s)| - 1]) == s
  {
    ReprBodyRoundTrip(s, ReprQuote(s));
  }

  /** A pair prints as its two reprs between brackets. */
  lemma ListReprPair(a: string, b: string)
    ensures ListRepr([a, b]) == "[" + StrRepr(a) + ", " + StrRepr(b) + "]"
  {
    assert Reprs([a, b]) == [StrRepr(a), StrRepr(b)];
    JoinCons(StrRepr(a), [StrRepr(b)], ", ");
  }

  /** Two plain names print as `['a', 'b']`. */
  lemma ListReprPlainPair(a: string, b: string)
    requires PlainText(a) && PlainText(b)
    ensures ListRepr([a, b]) == "['" + a + "', '" + b + "']"
  {
    ListReprPair(a, b);
    PlainRepr(a);
    PlainRepr(b);
  }
}
