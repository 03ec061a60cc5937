/** The JavaScript string operations the routes and components rely on, over `seq<char>`. */
module Strings {
  import opened Common

  /** `sep` occurs in `s` starting at position `i`. */
  predicate OccursAt(s: string, sep: string, i: nat) {
    i + |sep| <= |s| && s[i..i + |sep|] == sep
  }

  /** First occurrence of `sep` in `s` at or after `k` (JavaScript `indexOf(sep, k)`). */
  function IndexFrom(s: string, sep: string, k: nat): (r: Option<nat>)
    requires k <= |s|
    ensures r.Some? ==> k <= r.value && OccursAt(s, sep, r.value)
    ensures r.Some? ==> forall j :: k <= j < r.value ==> !OccursAt(s, sep, j)
    ensures r.None? ==> forall j :: k <= j <= |s| ==> !OccursAt(s, sep, j)
    decreases |s| - k
  {
    if OccursAt(s, sep, k) then Some(k)
    else if k == |s| then None
    else IndexFrom(s, sep, k + 1)
  }

  /** `s.indexOf(sep)`, as an option instead of -1. */
  function IndexOf(s: string, sep: string): (r: Option<nat>)
    ensures r.Some? ==> OccursAt(s, sep, r.value) && forall j :: 0 <= j < r.value ==> !OccursAt(s, sep, j)
    ensures r.None? ==> forall j :: 0 <= j <= |s| ==> !OccursAt(s, sep, j)
  {
    IndexFrom(s, sep, 0)
  }

  /** `s.includes(sub)`. */
  predicate Contains(s: string, sub: string) {
    IndexOf(s, sub).Some?
  }

  /** `s.startsWith(p)`. */
  predicate StartsWith(s: string, p: string) {
    |p| <= |s| && s[..|p|] == p
  }

  /** `s.split(sep)[0]` for a non-empty separator: the text before the first `sep`, or all of `s`. */
  function BeforeFirst(s: string, sep: string): (r: string)
    ensures |r| <= |s| && r == s[..|r|]
    ensures !Contains(s, sep) ==> r == s
    ensures Contains(s, sep) ==> OccursAt(s, sep, |r|)
    ensures forall j :: 0 <= j < |r| ==> !OccursAt(s, sep, j)
  {
    match IndexOf(s, sep)
    case None => s
    case Some(i) => s[..i]
  }

  /** The first occurrence of `sep` in `s` starts at `i`. */
  predicate FirstAt(s: string, sep: string, i: nat) {
    OccursAt(s, sep, i) && forall j :: 0 <= j < i ==> !OccursAt(s, sep, j)
  }

  /** `s.split(sep)[1]` for a non-empty separator: the text between the first and the second
      occurrence of `sep` (or the end), and `undefined` when `sep` does not occur. */
  function SecondPart(s: string, sep: string): (r: Option<string>)
    requires sep != ""
    ensures r.None? <==> !Contains(s, sep)
    ensures r.Some? ==> exists i: nat :: SecondPartAt(s, sep, i, r.value)
  {
    match IndexOf(s, sep)
    case None => None
    case Some(i) =>
      var r := BeforeFirst(s[i + |sep|..], sep);
      assert SecondPartAt(s, sep, i, r);
      Some(r)
  }

  /** `sep` first occurs at `i`, and `v` is what follows it up to the next `sep` or the end. */
  predicate SecondPartAt(s: string, sep: string, i: nat, v: string) {
    FirstAt(s, sep, i) && v == BeforeFirst(s[i + |sep|..], sep)
  }

  /** ASCII case mapping of `toLowerCase` / `toUpperCase`. */
  function LowerChar(c: char): char {
    if 'A' <= c <= 'Z' then (c as int + 32) as char else c
  }

  function UpperChar(c: char): char {
    if 'a' <= c <= 'z' then (c as int - 32) as char else c
  }

  function ToLower(s: string): (r: string)
    ensures |r| == |s| && forall i :: 0 <= i < |s| ==> r[i] == LowerChar(s[i])
  {
    seq(|s|, i requires 0 <= i < |s| => LowerChar(s[i]))
  }

  function ToUpper(s: string): (r: string)
    ensures |r| == |s| && forall i :: 0 <= i < |s| ==> r[i] == UpperChar(s[i])
  {
    seq(|s|, i requires 0 <= i < |s| => UpperChar(s[i]))
  }

  /** The characters `String.prototype.trim` removes: ECMAScript WhiteSpace and LineTerminator. */
  predicate IsSpace(c: char) {
    c == ' ' || c == '\t' || c == '\n' || c == '\r' || c == '\U{B}' || c == '\U{C}'
    || c == '\U{A0}' || c == '\U{1680}' || ('\U{2000}' <= c <= '\U{200A}')
    || c == '\U{2028}' || c == '\U{2029}' || c == '\U{202F}' || c == '\U{205F}'
    || c == '\U{3000}' || c == '\U{FEFF}'
  }

  function TrimStart(s: string): (r: string)
    ensures |r| <= |s| && r == s[|s| - |r|..]
    ensures forall i :: 0 <= i < |s| - |r| ==> IsSpace(s[i])
    ensures r != [] ==> !IsSpace(r[0])
  {
    if s != [] && IsSpace(s[0]) then
      var t := TrimStart(s[1..]);
      assert forall i :: 1 <= i < |s| - |t| ==> s[i] == s[1..][i - 1];
      assert s[1..][|s| - 1 - |t|..] == s[|s| - |t|..];
      t
    else s
  }

  function TrimEnd(s: string): (r: string)
    ensures |r| <= |s| && r == s[..|r|]
    ensures forall i :: |r| <= i < |s| ==> IsSpace(s[i])
    ensures r != [] ==> !IsSpace(r[|r| - 1])
  {
    if s != [] && IsSpace(s[|s| - 1]) then
      var t := TrimEnd(s[..|s| - 1]);
      assert forall i :: |t| <= i < |s| - 1 ==> s[i] == s[..|s| - 1][i];
      assert s[..|s| - 1][..|t|] == s[..|t|];
      t
    else s
  }

  /** `r` is `s` with `a` white-space characters cut from the front and only white space cut from the back. */
  predicate TrimmedAt(s: string, r: string, a: nat) {
    && a + |r| <= |s| && r == s[a..a + |r|]
    && (forall i :: 0 <= i < a ==> IsSpace(s[i]))
    && (forall i :: a + |r| <= i < |s| ==> IsSpace(s[i]))
  }

  /** `s.trim()`: `s` without its leading and trailing white space. */
  function Trim(s: string): (r: string)
    ensures |r| <= |s|
    ensures r != [] ==> !IsSpace(r[0]) && !IsSpace(r[|r| - 1])
  {
    TrimEnd(TrimStart(s))
  }

  /** Trimming cuts only white space, from both ends, and keeps the middle of `s` as it is. */
  lemma TrimCutsOnlySpace(s: string)
    ensures TrimmedAt(s, Trim(s), |s| - |TrimStart(s)|)
  {
    TrimmedFrom(s, TrimStart(s), Trim(s));
  }

  /** Cutting white space from the front of `s` to get `t`, then from the back of `t` to get `r`,
      cuts only white space from both ends of `s`. */
  lemma TrimmedFrom(s: string, t: string, r: string)
    requires |t| <= |s| && t == s[|s| - |t|..] && forall i :: 0 <= i < |s| - |t| ==> IsSpace(s[i])
    requires |r| <= |t| && r == t[..|r|] && forall j :: |r| <= j < |t| ==> IsSpace(t[j])
    ensures TrimmedAt(s, r, |s| - |t|)
  {
    var a := |s| - |t|;
    assert r == s[a..a + |r|];
    forall i | a + |r| <= i < |s| ensures IsSpace(s[i]) {
      assert s[i] == t[i - a];
    }
  }

  /** `xs.join(sep)`. */
  function Join(xs: seq<string>, sep: string): (r: string)
    ensures |xs| == 1 ==> r == xs[0]
  {
    if xs == [] then ""
    else if |xs| == 1 then xs[0]
    else xs[0] + sep + Join(xs[1..], sep)
  }

  /** The position of the first `c` in `s`. */
  function FirstIndexOf(s: string, c: char): (i: nat)
    requires c in s
    ensures i < |s| && s[i] == c && c !in s[..i]
  {
    if s[0] == c then 0
    else
      assert c in s[1..] by { var k :| 0 <= k < |s| && s[k] == c; assert s[1..][k - 1] == c; }
      1 + FirstIndexOf(s[1..], c)
  }

  lemma {:induction false} FirstIndexAfter(a: string, b: string, c: char)
    requires c !in a
    ensures c in a + [c] + b && FirstIndexOf(a + [c] + b, c) == |a|
  {
    assert (a + [c] + b)[|a|] == c;
    if a != [] {
      assert (a + [c] + b)[1..] == a[1..] + [c] + b;
      FirstIndexAfter(a[1..], b, c);
    }
  }

  /** `s.split(c)` for a one-character separator: the pieces between the occurrences of `c`; a
      text without `c` is one piece. */
  function Split(s: string, c: char): (r: seq<string>)
    ensures |r| >= 1
    decreases |s|
  {
    if c !in s then [s]
    else
      var i := FirstIndexOf(s, c);
      [s[..i]] + Split(s[i + 1..], c)
  }

  /** Splitting a joined list at its separator gives the list back, provided no element contains
      the separator. */
  lemma {:induction false} SplitJoin(xs: seq<string>, c: char)
    requires xs != [] && forall k :: 0 <= k < |xs| ==> c !in xs[k]
    ensures Split(Join(xs, [c]), c) == xs
  {
    if |xs| > 1 {
      var rest := Join(xs[1..], [c]);
      assert Join(xs, [c]) == xs[0] + [c] + rest;
      SplitStep(xs[0], rest, c);
      SplitJoin(xs[1..], c);
      assert xs == [xs[0]] + xs[1..];
    }
  }

  /** Splitting at the first separator: the piece before it, then the split of the rest. */
  lemma SplitStep(a: string, rest: string, c: char)
    requires c !in a
    ensures Split(a + [c] + rest, c) == [a] + Split(rest, c)
  {
    var s := a + [c] + rest;
    FirstIndexAfter(a, rest, c);
    assert s[..|a|] == a;
    assert s[|a| + 1..] == rest;
  }

  function DigitChar(d: nat): (c: char)
    requires d < 10
    ensures '0' <= c <= '9'
  {
    ['0', '1', '2', '3', '4', '5', '6', '7', '8', '9'][d]
  }

  /** The decimal text of a natural, as `String(n)` prints it. */
  function NatText(n: nat): (r: string)
    ensures r != [] && forall i :: 0 <= i < |r| ==> '0' <= r[i] <= '9'
    ensures n < 10 <==> |r| == 1
  {
    if n < 10 then [DigitChar(n)] else NatText(n / 10) + [DigitChar(n % 10)]
  }

  /** The value of the one or two digits after the decimal point, in hundredths. */
  function Hundredths(ds: string): int
    requires 1 <= |ds| <= 2
  {
    if |ds| == 1 then 10 * (ds[0] as int - '0' as int)
    else 10 * (ds[0] as int - '0' as int) + (ds[1] as int - '0' as int)
  }

  /** A number of paise printed as JavaScript prints the rupee amount: a leading minus sign when
      negative, no trailing zeros after the point. */
  function AmountText(paise: int): (r: string)
    ensures paise >= 0 && paise % 100 == 0 ==> r == NatText(paise / 100)
    ensures paise >= 0 && paise % 100 != 0 ==>
              var w := NatText(paise / 100);
              && |w| + 2 <= |r| <= |w| + 3 && r[..|w|] == w && r[|w|] == '.'
              && (forall j :: |w| < j < |r| ==> '0' <= r[j] <= '9')
              && r[|r| - 1] != '0'
              && Hundredths(r[|w| + 1..]) == paise % 100
    ensures r != [] && (paise < 0 <==> r[0] == '-')
    decreases if paise < 0 then 1 - paise else paise
  {
    if paise < 0 then "-" + AmountText(-paise)
    else
      var whole := NatText(paise / 100);
      var cents := paise % 100;
      if cents == 0 then whole
      else
        var f := Fraction(cents);
        assert (whole + "." + f)[..|whole|] == whole;
        assert (whole + "." + f)[|whole| + 1..] == f;
        whole + "." + f
  }

  /** The digits after the decimal point for `cents` hundredths, without a trailing zero. */
  function Fraction(cents: nat): (r: string)
    requires 0 < cents < 100
    ensures 1 <= |r| <= 2 && (forall j :: 0 <= j < |r| ==> '0' <= r[j] <= '9')
    ensures r[|r| - 1] != '0' && Hundredths(r) == cents
  {
    if cents % 10 == 0 then [DigitChar(cents / 10)]
    else [DigitChar(cents / 10), DigitChar(cents % 10)]
  }
}
