/** The few Python string operations the renderer, the argument check and the quiz use. */
module Text {

  /** Python's `sep.join(parts)`. */
  function Join(sep: string, parts: seq<string>): string
  {
    if |parts| == 0 then ""
    else if |parts| == 1 then parts[0]
    else parts[0] + sep + Join(sep, parts[1..])
  }

  /** Joining a concatenation is joining the halves with one more separator between them. */
  lemma {:induction false} JoinAppend(sep: string, a: seq<string>, b: seq<string>)
    requires |a| >= 1 && |b| >= 1
    ensures Join(sep, a + b) == Join(sep, a) + sep + Join(sep, b)
  {
    if |a| > 1 {
      assert (a + b)[1..] == a[1..] + b;
      JoinAppend(sep, a[1..], b);
    } else {
      assert (a + b)[1..] == b;
    }
  }

  lemma Join3(sep: string, a: string, b: string, c: string)
    ensures Join(sep, [a, b, c]) == a + sep + b + sep + c
  {
    assert [a, b, c][1..] == [b, c];
    assert [b, c][1..] == [c];
    assert Join(sep, [b, c]) == b + sep + c;
    assert Join(sep, [a, b, c]) == a + sep + (b + sep + c);
  }

  lemma Join4(sep: string, a: string, b: string, c: string, d: string)
    ensures Join(sep, [a, b, c, d]) == a + sep + b + sep + c + sep + d
  {
    assert [a, b, c, d][1..] == [b, c, d];
    Join3(sep, b, c, d);
  }

  /** The first position of `c` in `s`. */
  function IndexOf(s: string, c: char): (i: nat)
    requires c in s
    ensures i < |s| && s[i] == c && c !in s[..i]
  {
    if s[0] == c then 0
    else
      assert c in s[1..] by { var k :| 0 <= k < |s| && s[k] == c; assert s[1..][k - 1] == c; }
      var j := IndexOf(s[1..], c);
      assert s[..j + 1] == [s[0]] + s[1..][..j];
      j + 1
  }

  /** Python's `s.split(c)` for a one-character separator: always at least one piece. */
  function Split(s: string, c: char): (r: seq<string>)
    ensures |r| >= 1
    decreases |s|
  {
    if c !in s then [s]
    else
      var i := IndexOf(s, c);
      [s[..i]] + Split(s[i + 1..], c)
  }

  /** The first `c` of `p + [c] + rest` is the one right after `p` when `p` has none. */
  lemma IndexOfAfterFree(p: string, c: char, rest: string)
    requires c !in p
    ensures c in p + [c] + rest && IndexOf(p + [c] + rest, c) == |p|
  {
    var s := p + [c] + rest;
    assert s[|p|] == c;
  }

  /** Splitting a join on a separator that occurs in no part gives the parts back. */
  lemma {:induction false} SplitJoin(parts: seq<string>, c: char)
    requires |parts| >= 1
    requires forall i :: 0 <= i < |parts| ==> c !in parts[i]
    ensures Split(Join([c], parts), c) == parts
  {
    if |parts| > 1 {
      var rest := Join([c], parts[1..]);
      var s := parts[0] + [c] + rest;
      assert Join([c], parts) == s;
      IndexOfAfterFree(parts[0], c, rest);
      var n := |parts[0]|;
      assert s[..n] == parts[0];
      assert s[n + 1..] == rest;
      assert Split(s, c) == [parts[0]] + Split(rest, c);
      SplitJoin(parts[1..], c);
      assert parts == [parts[0]] + parts[1..];
    }
  }

  /** A join of parts and a separator free of `c` is free of `c`. */
  lemma {:induction false} JoinFree(sep: string, parts: seq<string>, c: char)
    requires c !in sep
    requires forall i :: 0 <= i < |parts| ==> c !in parts[i]
    ensures c !in Join(sep, parts)
  {
    if |parts| > 1 {
      JoinFree(sep, parts[1..], c);
      var rest := Join(sep, parts[1..]);
      assert Join(sep, parts) == parts[0] + sep + rest;
      forall k | 0 <= k < |parts[0] + sep + rest|
        ensures (parts[0] + sep + rest)[k] != c
      {
        if k < |parts[0]| { assert (parts[0] + sep + rest)[k] == parts[0][k]; }
        else if k < |parts[0]| + |sep| { assert (parts[0] + sep + rest)[k] == sep[k - |parts[0]|]; }
        else { assert (parts[0] + sep + rest)[k] == rest[k - |parts[0]| - |sep|]; }
      }
    }
  }

  /** Joining one-character parts with one-character separators puts part k at position 2k. */
  lemma {:induction false} JoinSingles(sep: char, parts: seq<string>)
    requires |parts| >= 1
    requires forall i :: 0 <= i < |parts| ==> |parts[i]| == 1
    ensures |Join([sep], parts)| == 2 * |parts| - 1
    ensures forall k :: 0 <= k < |parts| ==> Join([sep], parts)[2 * k] == parts[k][0]
    ensures forall k :: 0 <= k < |parts| - 1 ==> Join([sep], parts)[2 * k + 1] == sep
  {
    if |parts| > 1 {
      JoinSingles(sep, parts[1..]);
      var rest := Join([sep], parts[1..]);
      var s := parts[0] + [sep] + rest;
      assert Join([sep], parts) == s;
      forall k | 0 <= k < |parts| ensures s[2 * k] == parts[k][0] {
        if k > 0 { assert s[2 * k] == rest[2 * (k - 1)]; assert parts[1..][k - 1] == parts[k]; }
      }
      forall k | 0 <= k < |parts| - 1 ensures s[2 * k + 1] == sep {
        if k > 0 { assert s[2 * k + 1] == rest[2 * (k - 1) + 1]; }
      }
    }
  }

  predicate IsDigit(c: char) { '0' <= c <= '9' }

  function DigitChar(d: nat): (c: char)
    requires d < 10
    ensures IsDigit(c)
  {
    (48 + d) as char
  }

  /** Python's `str(n)` for a natural number: its decimal digits, most significant first. */
  function NatToString(n: nat): (s: string)
    ensures |s| >= 1
    ensures forall i :: 0 <= i < |s| ==> IsDigit(s[i])
    ensures |s| == 1 <==> n < 10
    ensures 10 <= n < 100 ==> |s| == 2
    ensures s[0] != '0' || n == 0
  {
    if n < 10 then [DigitChar(n)] else NatToString(n / 10) + [DigitChar(n % 10)]
  }

  function DigitValue(c: char): nat
    requires IsDigit(c)
  {
    c as int - '0' as int
  }

  /** The number a string of decimal digits denotes. */
  function DecimalValue(s: string): nat
    requires forall i :: 0 <= i < |s| ==> IsDigit(s[i])
  {
    if |s| == 0 then 0 else 10 * DecimalValue(s[..|s| - 1]) + DigitValue(s[|s| - 1])
  }

  /** `str(n)` is read back as `n`. */
  lemma {:induction false} DecimalValueOfString(n: nat)
    ensures DecimalValue(NatToString(n)) == n
  {
    var s := NatToString(n);
    if n >= 10 {
      DecimalValueOfString(n / 10);
      assert s[..|s| - 1] == NatToString(n / 10);
    }
  }

  /** Python's `s.rjust(width, fill)`. */
  function RJust(s: string, width: int, fill: char): string
  {
    if width <= |s| then s else seq(width - |s|, _ => fill) + s
  }

  /** The justified string is `width` long (or `s` itself when that is longer): fill characters, then `s`. */
  lemma RJustShape(s: string, width: int, fill: char)
    ensures var r := RJust(s, width, fill);
      && |r| == (if width <= |s| then |s| else width)
      && r[|r| - |s|..] == s
      && forall i :: 0 <= i < |r| - |s| ==> r[i] == fill
  {
  }

  /** Python's `s.endswith(suffix)`. */
  predicate EndsWith(s: string, suffix: string)
  {
    |suffix| <= |s| && s[|s| - |suffix|..] == suffix
  }

  /** Python's `str.isspace` for one character. */
  predicate IsSpace(c: char)
  {
    var n := c as int;
    || 9 <= n <= 13 || 28 <= n <= 32 || n == 0x85 || n == 0xA0 || n == 0x1680
    || 0x2000 <= n <= 0x200A || n == 0x2028 || n == 0x2029 || n == 0x202F || n == 0x205F || n == 0x3000
  }

  /** Every character of `s[a..b]` is whitespace. */
  predicate SpaceRun(s: string, a: int, b: int)
    requires 0 <= a <= b <= |s|
  {
    forall k :: a <= k < b ==> IsSpace(s[k])
  }

  /** Python's `s.lstrip()`: drop leading whitespace. */
  function StripLeading(s: string): string
  {
    if |s| > 0 && IsSpace(s[0]) then StripLeading(s[1..]) else s
  }

  /** Python's `s.rstrip()`: drop trailing whitespace. */
  function StripTrailing(s: string): string
  {
    if |s| > 0 && IsSpace(s[|s| - 1]) then StripTrailing(s[..|s| - 1]) else s
  }

  /** Python's `s.strip()`. */
  function Strip(s: string): string
  {
    StripTrailing(StripLeading(s))
  }

  /** `lstrip()` drops the whitespace run at the front and stops at the first other character. */
  lemma {:induction false} StripLeadingSlice(s: string) returns (i: nat)
    ensures i <= |s| && StripLeading(s) == s[i..] && SpaceRun(s, 0, i)
    ensures i < |s| ==> !IsSpace(s[i])
  {
    if |s| > 0 && IsSpace(s[0]) {
      var k := StripLeadingSlice(s[1..]);
      i := k + 1;
      assert s[1..][k..] == s[i..];
      forall m | 0 <= m < i ensures IsSpace(s[m]) {
        if m > 0 { assert s[m] == s[1..][m - 1]; }
      }
    } else {
      i := 0;
    }
  }

  /** `rstrip()` drops the whitespace run at the back and stops at the last other character. */
  lemma {:induction false} StripTrailingSlice(s: string) returns (j: nat)
    ensures j <= |s| && StripTrailing(s) == s[..j] && SpaceRun(s, j, |s|)
    ensures j > 0 ==> !IsSpace(s[j - 1])
  {
    if |s| > 0 && IsSpace(s[|s| - 1]) {
      var t := s[..|s| - 1];
      j := StripTrailingSlice(t);
      assert t[..j] == s[..j];
      forall m | j <= m < |s| ensures IsSpace(s[m]) {
        if m < |s| - 1 { assert s[m] == t[m]; }
      }
    } else {
      j := |s|;
    }
  }

  /** `strip()` keeps a middle slice of `s`: all it drops is whitespace, and what it keeps neither starts nor ends with it. */
  lemma StripSlice(s: string) returns (i: nat, j: nat)
    ensures i <= j <= |s| && Strip(s) == s[i..j] && SpaceRun(s, 0, i) && SpaceRun(s, j, |s|)
    ensures i < j ==> !IsSpace(s[i]) && !IsSpace(s[j - 1])
  {
    i := StripLeadingSlice(s);
    var l := s[i..];
    var k := StripTrailingSlice(l);
    j := i + k;
    assert l[..k] == s[i..j];
    forall m | j <= m < |s| ensures IsSpace(s[m]) { assert s[m] == l[m - i]; }
    if i < j { assert s[j - 1] == l[k - 1]; }
  }

  /** Of the slices of `x` that drop only whitespace, the strip is the one whose ends are not whitespace. */
  lemma StripUnique(x: string, i: nat, j: nat)
    requires i <= j <= |x|
    requires SpaceRun(x, 0, i) && SpaceRun(x, j, |x|)
    requires i == j || (!IsSpace(x[i]) && !IsSpace(x[j - 1]))
    ensures Strip(x) == x[i..j]
  {
    var i', j' := StripSlice(x);
    if i < j && i' < j' {
      assert i == i' && j == j';
    }
  }

  /** Stripping what is already stripped changes nothing. */
  lemma StripIdempotent(s: string)
    ensures Strip(Strip(s)) == Strip(s)
  {
    var i, j := StripSlice(s);
    var t := Strip(s);
    assert forall k :: 0 <= k < |t| ==> t[k] == s[i + k];
    StripUnique(t, 0, |t|);
    assert t[0..|t|] == t;
  }

  function UpperChar(c: char): char
  {
    if 'a' <= c <= 'z' then (c as int - 32) as char else c
  }

  /** Python's `s.upper()` on the ASCII letters. */
  function Upper(s: string): (r: string)
  {
    seq(|s|, i requires 0 <= i < |s| => UpperChar(s[i]))
  }

  /** After `upper()` no lower-case ASCII letter is left; each character is kept or is a lower-case letter moved
      32 code points down to its capital; and upper-casing again changes nothing. */
  lemma UpperCases(s: string)
    ensures forall i :: 0 <= i < |Upper(s)| ==> !('a' <= Upper(s)[i] <= 'z')
    ensures forall i :: 0 <= i < |s| ==>
      Upper(s)[i] == s[i] || ('a' <= s[i] <= 'z' && Upper(s)[i] as int == s[i] as int - 32)
    ensures Upper(Upper(s)) == Upper(s)
  {
  }
}
