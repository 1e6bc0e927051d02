/** String primitives used by the memory engine: Python's whitespace test,
    strip(), ASCII case mapping, str.join and decimal rendering of integers. */
module Text {

  /** Python's str.isspace() for a single code point. */
  predicate IsSpace(c: char) {
    c == ' ' || ('\t' <= c <= '\r') || ('\U{1c}' <= c <= '\U{1f}')
    || c == '\U{85}' || c == '\U{a0}' || c == '\U{1680}'
    || ('\U{2000}' <= c <= '\U{200a}') || c == '\U{2028}' || c == '\U{2029}'
    || c == '\U{202f}' || c == '\U{205f}' || c == '\U{3000}'
  }

  predicate IsUpperAscii(c: char) { 'A' <= c <= 'Z' }

  function LowerChar(c: char): char {
    if IsUpperAscii(c) then (c as int + 32) as char else c
  }

  function UpperChar(c: char): char {
    if 'a' <= c <= 'z' then (c as int - 32) as char else c
  }

  /** str.lower() restricted to the ASCII letters. */
  function ToLower(s: string): (r: string)
    ensures |r| == |s|
    ensures forall i :: 0 <= i < |r| ==> r[i] == LowerChar(s[i]) && !IsUpperAscii(r[i])
  {
    seq(|s|, i requires 0 <= i < |s| => LowerChar(s[i]))
  }

  /** str.upper() restricted to the ASCII letters. */
  function ToUpper(s: string): (r: string)
    ensures |r| == |s|
    ensures forall i :: 0 <= i < |r| ==> r[i] == UpperChar(s[i]) && !('a' <= r[i] <= 'z')
  {
    seq(|s|, i requires 0 <= i < |s| => UpperChar(s[i]))
  }

  /** str.capitalize() restricted to ASCII: first letter upper case, the rest lower case. */
  function Capitalize(s: string): (r: string)
    ensures |r| == |s|
    ensures |s| > 0 ==> r[0] == UpperChar(s[0])
  {
    if |s| == 0 then "" else [UpperChar(s[0])] + ToLower(s[1..])
  }

  /** A string with no leading and no trailing whitespace. */
  predicate IsStripped(s: string) {
    |s| == 0 || (!IsSpace(s[0]) && !IsSpace(s[|s| - 1]))
  }

  predicate AllSpace(s: string) {
    forall i :: 0 <= i < |s| ==> IsSpace(s[i])
  }

  /** Number of leading whitespace characters. */
  function LeadingSpace(s: string): (n: nat)
    ensures n <= |s| && AllSpace(s[..n]) && (n == |s| || !IsSpace(s[n]))
  {
    if |s| == 0 || !IsSpace(s[0]) then 0 else 1 + LeadingSpace(s[1..])
  }

  /** Number of trailing whitespace characters. */
  function TrailingSpace(s: string): (n: nat)
    ensures n <= |s| && AllSpace(s[|s| - n..]) && (n == |s| || !IsSpace(s[|s| - n - 1]))
  {
    if |s| == 0 || !IsSpace(s[|s| - 1]) then 0
    else
      var p := s[..|s| - 1];
      var m := TrailingSpace(p);
      assert forall i :: |s| - (m + 1) <= i < |s| - 1 ==> s[i] == p[i];
      m + 1
  }

  /** str.strip(): the slice left after removing whitespace at both ends. */
  function Strip(s: string): (r: string)
    ensures IsStripped(r)
    ensures exists a, b :: 0 <= a <= b <= |s| && r == s[a..b] && AllSpace(s[..a]) && AllSpace(s[b..])
  {
    var a := LeadingSpace(s);
    var t := s[a..];
    var b := a + |t| - TrailingSpace(t);
    assert s[a..b] == t[..|t| - TrailingSpace(t)];
    assert s[b..] == t[|t| - TrailingSpace(t)..];
    s[a..b]
  }

  /** Strip only removes what is outside the first and last non-space characters. */
  lemma StripFramed(s: string)
    requires |s| >= 2 && IsSpace(s[0]) && !IsSpace(s[1])
    requires IsSpace(s[|s| - 1]) && !IsSpace(s[|s| - 2])
    ensures Strip(s) == s[1..|s| - 1]
  {
    var a := LeadingSpace(s);
    assert a == 1 by {
      assert LeadingSpace(s[1..]) == 0;
    }
    var t := s[1..];
    assert TrailingSpace(t) == 1 by {
      assert t[..|t| - 1][|t| - 2] == s[|s| - 2];
    }
  }

  /** A string that is already stripped is left alone. */
  lemma StripIdentity(s: string)
    requires IsStripped(s)
    ensures Strip(s) == s
  {
    if |s| > 0 {
      assert LeadingSpace(s) == 0;
      assert s[0..] == s;
    }
  }

  /** str.join(parts) with separator sep. */
  function Join(parts: seq<string>, sep: string): (r: string)
    ensures |parts| == 0 ==> r == ""
    ensures |parts| == 1 ==> r == parts[0]
  {
    if |parts| == 0 then ""
    else if |parts| == 1 then parts[0]
    else parts[0] + sep + Join(parts[1..], sep)
  }

  /** The first part opens the joined text. */
  lemma {:induction false} JoinFirst(parts: seq<string>, sep: string)
    requires |parts| > 0
    ensures StartsWith(Join(parts, sep), parts[0])
  {
    if |parts| > 1 {
      assert Join(parts, sep) == parts[0] + (sep + Join(parts[1..], sep));
    }
  }

  /** The last part closes the joined text. */
  lemma {:induction false} JoinLast(parts: seq<string>, sep: string)
    requires |parts| > 0
    ensures EndsWith(Join(parts, sep), parts[|parts| - 1])
  {
    if |parts| > 1 {
      JoinLast(parts[1..], sep);
      var tail := Join(parts[1..], sep);
      assert Join(parts, sep) == (parts[0] + sep) + tail;
      assert parts[1..][|parts[1..]| - 1] == parts[|parts| - 1];
    }
  }

  function DigitChar(d: nat): char
    requires d < 10
  {
    ('0' as int + d) as char
  }

  /** Decimal rendering of a natural number, as Python's str(int) or f"{n}". */
  function Decimal(n: nat): (r: string)
    ensures |r| >= 1 && (n >= 10 ==> |r| >= 2)
    ensures r[0] == '0' ==> n == 0
    decreases n
  {
    if n < 10 then [DigitChar(n)] else Decimal(n / 10) + [DigitChar(n % 10)]
  }

  predicate AllDigits(s: string) {
    forall i :: 0 <= i < |s| ==> '0' <= s[i] <= '9'
  }

  /** The rendering is made of decimal digits only. */
  lemma {:induction false} DecimalDigits(n: nat)
    ensures AllDigits(Decimal(n))
    decreases n
  {
    if n >= 10 {
      DecimalDigits(n / 10);
    }
  }

  /** Different numbers render differently. */
  lemma {:induction false} DecimalInjective(a: nat, b: nat)
    requires Decimal(a) == Decimal(b)
    ensures a == b
    decreases a
  {
    if a >= 10 && b >= 10 {
      var da, db := Decimal(a), Decimal(b);
      assert da[|da| - 1] == db[|db| - 1];
      assert Decimal(a / 10) == da[..|da| - 1] == db[..|db| - 1] == Decimal(b / 10);
      DecimalInjective(a / 10, b / 10);
    }
  }

  /** Python's f"{n:02}": decimal, zero-padded to width two. */
  function Pad2(n: nat): (r: string)
    ensures |r| >= 2
  {
    if n < 10 then "0" + Decimal(n) else Decimal(n)
  }

  lemma Pad2Digits(n: nat)
    ensures AllDigits(Pad2(n))
  {
    DecimalDigits(n);
  }

  /** Different numbers pad differently. */
  lemma Pad2Injective(a: nat, b: nat)
    requires Pad2(a) == Pad2(b)
    ensures a == b
  {
    if a < 10 && b < 10 {
      assert Pad2(a)[1] == DigitChar(a) && Pad2(b)[1] == DigitChar(b);
    } else if a >= 10 && b >= 10 {
      DecimalInjective(a, b);
    }
  }

  /** Position of the first `c` in `s`, or |s| when there is none. */
  function IndexOf(s: string, c: char): (n: nat)
    ensures n <= |s|
  {
    if |s| == 0 || s[0] == c then 0 else 1 + IndexOf(s[1..], c)
  }

  /** The first `c` of `a + [c] + rest` is the one after `a` when `a` holds none. */
  lemma {:induction false} IndexOfMarker(a: string, c: char, rest: string)
    requires forall i :: 0 <= i < |a| ==> a[i] != c
    ensures IndexOf(a + [c] + rest, c) == |a|
  {
    if |a| > 0 {
      assert (a + [c] + rest)[1..] == a[1..] + [c] + rest;
      IndexOfMarker(a[1..], c, rest);
    }
  }

  /** Number of characters after the last `c` in `s`, or |s| when there is none. */
  function CharsAfterLast(s: string, c: char): (n: nat)
    ensures n <= |s|
  {
    if |s| == 0 || s[|s| - 1] == c then 0 else 1 + CharsAfterLast(s[..|s| - 1], c)
  }

  /** The last `c` of `front + [c] + a` is the one before `a` when `a` holds none. */
  lemma {:induction false} CharsAfterLastMarker(front: string, c: char, a: string)
    requires forall i :: 0 <= i < |a| ==> a[i] != c
    ensures CharsAfterLast(front + [c] + a, c) == |a|
  {
    if |a| > 0 {
      assert (front + [c] + a)[..|front + [c] + a| - 1] == front + [c] + a[..|a| - 1];
      CharsAfterLastMarker(front, c, a[..|a| - 1]);
    }
  }

  /** A common prefix cancels. */
  lemma PrefixCancel(p: string, x: string, y: string)
    requires p + x == p + y
    ensures x == y
  {
    assert x == (p + x)[|p|..] && y == (p + y)[|p|..];
  }

  /** Two texts split at their first `c`: when neither head holds `c`, equal
      texts have equal heads and equal tails. */
  lemma SplitAtFirst(h1: string, t1: string, h2: string, t2: string, c: char)
    requires forall i :: 0 <= i < |h1| ==> h1[i] != c
    requires forall i :: 0 <= i < |h2| ==> h2[i] != c
    requires h1 + [c] + t1 == h2 + [c] + t2
    ensures h1 == h2 && t1 == t2
  {
    IndexOfMarker(h1, c, t1);
    IndexOfMarker(h2, c, t2);
    var s := h1 + [c] + t1;
    assert h1 == s[..|h1|] == h2;
    assert t1 == s[|h1| + 1..] == t2;
  }

  /** Two texts split at their last `c`: when neither tail holds `c`, equal
      texts have equal heads and equal tails. */
  lemma SplitAtLast(h1: string, t1: string, h2: string, t2: string, c: char)
    requires forall i :: 0 <= i < |t1| ==> t1[i] != c
    requires forall i :: 0 <= i < |t2| ==> t2[i] != c
    requires h1 + [c] + t1 == h2 + [c] + t2
    ensures h1 == h2 && t1 == t2
  {
    CharsAfterLastMarker(h1, c, t1);
    CharsAfterLastMarker(h2, c, t2);
    var s := h1 + [c] + t1;
    assert t1 == s[|s| - |t1|..] == t2;
    assert h1 == s[..|h1|] == h2;
  }

  /** The characters of `s` from `offset` up to the next space: how a reader
      picks the number out of a label such as "Log 12 ...". */
  function WordAt(s: string, offset: nat): (r: string)
    requires offset <= |s|
    ensures |r| <= |s| - offset
  {
    s[offset..][..IndexOf(s[offset..], ' ')]
  }

  /** A number written after `prefix` and followed by a space reads back. */
  lemma NumberBeforeSpace(prefix: string, n: nat, rest: string)
    ensures WordAt(prefix + Decimal(n) + " " + rest, |prefix|) == Decimal(n)
  {
    var s := prefix + Decimal(n) + " " + rest;
    assert s[|prefix|..] == Decimal(n) + [' '] + rest;
    DecimalDigits(n);
    IndexOfMarker(Decimal(n), ' ', rest);
  }

  predicate StartsWith(s: string, prefix: string) {
    |prefix| <= |s| && s[..|prefix|] == prefix
  }

  predicate EndsWith(s: string, suffix: string) {
    |suffix| <= |s| && s[|s| - |suffix|..] == suffix
  }
}
