/** String primitives of JavaScript and Python that the client and the server
    rely on: `trim`/`strip`, `indexOf`, `split`, `join`, slicing, `replace` and
    decimal rendering of integers. Strings are sequences of Unicode scalar
    values. */
module Text {

  /** The characters JavaScript's `String.prototype.trim` removes: WhiteSpace
      (TAB, VT, FF, SP, NBSP, ZWNBSP and every Zs separator) and LineTerminator
      (LF, CR, LS, PS). */
  predicate IsJsSpace(c: char) {
    c == '\t' || c == '\n' || c == '\U{000B}' || c == '\U{000C}' || c == '\r' || c == ' '
    || c == '\U{00A0}' || c == '\U{1680}' || ('\U{2000}' <= c <= '\U{200A}')
    || c == '\U{2028}' || c == '\U{2029}' || c == '\U{202F}' || c == '\U{205F}'
    || c == '\U{3000}' || c == '\U{FEFF}'
  }

  /** The characters for which Python's `str.isspace` holds; `str.strip()`
      with no argument removes exactly these. */
  predicate IsPySpace(c: char) {
    ('\t' <= c <= '\r') || ('\U{001C}' <= c <= '\U{001F}') || c == ' '
    || c == '\U{0085}' || c == '\U{00A0}' || c == '\U{1680}' || ('\U{2000}' <= c <= '\U{200A}')
    || c == '\U{2028}' || c == '\U{2029}' || c == '\U{202F}' || c == '\U{205F}'
    || c == '\U{3000}'
  }

  /** Drops the leading characters satisfying `space`. */
  function TrimStart(s: string, space: char -> bool): (r: string)
    ensures |r| <= |s| && r == s[|s| - |r|..]
    ensures forall k :: 0 <= k < |s| - |r| ==> space(s[k])
    ensures r != [] ==> !space(r[0])
    decreases |s|
  {
    if s != [] && space(s[0]) then TrimStart(s[1..], space) else s
  }

  /** Drops the trailing characters satisfying `space`. */
  function TrimEnd(s: string, space: char -> bool): (r: string)
    ensures |r| <= |s| && r == s[..|r|]
    ensures forall k :: |r| <= k < |s| ==> space(s[k])
    ensures r != [] ==> !space(r[|r| - 1])
    decreases |s|
  {
    if s != [] && space(s[|s| - 1]) then TrimEnd(s[..|s| - 1], space) else s
  }

  /** Drops the leading and the trailing characters satisfying `space`. */
  function Strip(s: string, space: char -> bool): (r: string)
    ensures |r| <= |s|
    ensures forall c :: c in r ==> c in s
    ensures r != [] ==> !space(r[0]) && !space(r[|r| - 1])
    ensures r == [] ==> forall k :: 0 <= k < |s| ==> space(s[k])
  {
    var t := TrimStart(s, space);
    var r := TrimEnd(t, space);
    StripParts(s, t, r, space);
    r
  }

  lemma StripParts(s: string, t: string, r: string, space: char -> bool)
    requires |t| <= |s| && t == s[|s| - |t|..]
    requires forall k :: 0 <= k < |s| - |t| ==> space(s[k])
    requires |r| <= |t| && r == t[..|r|]
    requires forall k :: |r| <= k < |t| ==> space(t[k])
    ensures forall c :: c in r ==> c in s
    ensures r == [] ==> forall k :: 0 <= k < |s| ==> space(s[k])
  {
    forall c | c in r ensures c in s {
      var k :| 0 <= k < |r| && r[k] == c;
      assert c == s[|s| - |t| + k];
    }
    if r == [] {
      forall k | 0 <= k < |s| ensures space(s[k]) {
        if k >= |s| - |t| {
          assert s[k] == t[k - (|s| - |t|)];
        }
      }
    }
  }

  /** `s.trim()` in JavaScript. */
  function JsTrim(s: string): string {
    Strip(s, IsJsSpace)
  }

  /** `s.strip()` in Python. */
  function PyStrip(s: string): string {
    Strip(s, IsPySpace)
  }

  /** Stripping removes exactly the surrounding run of space characters: this
      characterises `Strip` independently of how it is computed. */
  lemma StripExact(pre: string, core: string, post: string, space: char -> bool)
    requires forall k :: 0 <= k < |pre| ==> space(pre[k])
    requires forall k :: 0 <= k < |post| ==> space(post[k])
    requires core != [] ==> !space(core[0]) && !space(core[|core| - 1])
    ensures Strip(pre + core + post, space) == core
  {
    if core == [] {
      var s := pre + post;
      assert pre + core + post == s + [];
      assert forall k :: 0 <= k < |s| ==> space(s[k]) by {
        forall k | 0 <= k < |s| ensures space(s[k]) {
          if k >= |pre| { assert s[k] == post[k - |pre|]; }
        }
      }
      TrimStartSpaces(s, [], space);
    } else {
      assert pre + core + post == pre + (core + post);
      TrimStartSpaces(pre, core + post, space);
      TrimEndSpaces(core, post, space);
    }
  }

  /** A run of spaces in front is trimmed, up to a non-space or the end. */
  lemma {:induction false} TrimStartSpaces(pre: string, rest: string, space: char -> bool)
    requires forall k :: 0 <= k < |pre| ==> space(pre[k])
    requires rest != [] ==> !space(rest[0])
    ensures TrimStart(pre + rest, space) == rest
  {
    if pre != [] {
      assert (pre + rest)[1..] == pre[1..] + rest;
      TrimStartSpaces(pre[1..], rest, space);
    }
  }

  /** A run of spaces at the end is trimmed, back to a non-space. */
  lemma {:induction false} TrimEndSpaces(rest: string, post: string, space: char -> bool)
    requires forall k :: 0 <= k < |post| ==> space(post[k])
    requires rest != [] && !space(rest[|rest| - 1])
    ensures TrimEnd(rest + post, space) == rest
  {
    if post != [] {
      assert (rest + post)[..|rest + post| - 1] == rest + post[..|post| - 1];
      TrimEndSpaces(rest, post[..|post| - 1], space);
    } else {
      assert rest + post == rest;
    }
  }

  /** Concatenation is associative; stated over plain variables so that a proof
      can regroup a long concatenation in one small step. */
  lemma Assoc<T>(a: seq<T>, b: seq<T>, c: seq<T>)
    ensures a + b + c == a + (b + c)
  {
  }

  /** `s.startsWith(p)`. */
  predicate StartsWith(s: string, p: string) {
    |p| <= |s| && s[..|p|] == p
  }

  /** The pattern `p` occurs in `s` starting at index `k`. */
  predicate OccursAt(s: string, p: string, k: nat) {
    k + |p| <= |s| && s[k..k + |p|] == p
  }

  /** `s.indexOf(p, i)`: the first index at or after `i` where `p` occurs, or -1. */
  function IndexFrom(s: string, p: string, i: nat): (r: int)
    requires i <= |s|
    ensures r == -1 || (i <= r && OccursAt(s, p, r))
    ensures r == -1 ==> forall k: nat :: i <= k ==> !OccursAt(s, p, k)
    ensures r >= 0 ==> forall k: nat :: i <= k < r ==> !OccursAt(s, p, k)
    decreases |s| - i
  {
    if i + |p| > |s| then -1
    else if OccursAt(s, p, i) then i
    else IndexFrom(s, p, i + 1)
  }

  /** `s.indexOf(p)`: the first index where `p` occurs, or -1. */
  function IndexOf(s: string, p: string): (r: int)
    ensures r == -1 || (0 <= r && OccursAt(s, p, r))
    ensures r == -1 ==> forall k: nat :: !OccursAt(s, p, k)
    ensures r >= 0 ==> forall k: nat :: k < r ==> !OccursAt(s, p, k)
  {
    IndexFrom(s, p, 0)
  }

  /** The first occurrence of `p` in `s` is also the first in any extension of `s`. */
  lemma IndexOfExtend(s: string, t: string, p: string)
    requires IndexOf(s, p) >= 0
    ensures IndexOf(s + t, p) == IndexOf(s, p)
  {
    var i := IndexOf(s, p);
    assert (s + t)[i..i + |p|] == s[i..i + |p|];
    assert OccursAt(s + t, p, i);
    forall k: nat | k < i
      ensures !OccursAt(s + t, p, k)
    {
      assert !OccursAt(s, p, k);
      assert (s + t)[k..k + |p|] == s[k..k + |p|];
    }
  }

  /** The strings of `ss` one after another. */
  function Concat(ss: seq<string>): string {
    if ss == [] then "" else ss[0] + Concat(ss[1..])
  }

  lemma {:induction false} ConcatAppend(a: seq<string>, b: seq<string>)
    ensures Concat(a + b) == Concat(a) + Concat(b)
  {
    if a == [] {
      assert a + b == b;
    } else {
      assert (a + b)[1..] == a[1..] + b;
      ConcatAppend(a[1..], b);
      Assoc(a[0], Concat(a[1..]), Concat(b));
    }
  }

  /** `xs.join(sep)` in JavaScript, `sep.join(xs)` in Python. */
  function Join(xs: seq<string>, sep: string): string
  {
    if |xs| == 0 then ""
    else if |xs| == 1 then xs[0]
    else xs[0] + sep + Join(xs[1..], sep)
  }

  /** Joining one more piece adds the separator and the piece at the end. */
  lemma {:induction false} JoinSnoc(xs: seq<string>, x: string, sep: string)
    requires xs != []
    ensures Join(xs + [x], sep) == Join(xs, sep) + sep + x
  {
    if |xs| == 1 {
      assert (xs + [x])[1..] == [x];
    } else {
      assert (xs + [x])[1..] == xs[1..] + [x];
      JoinSnoc(xs[1..], x, sep);
      Assoc(xs[0] + sep, Join(xs[1..], sep), sep + x);
    }
  }

  /** The index of the first `c` in `s`. */
  function FirstIndex(s: string, c: char): (r: nat)
    requires c in s
    ensures r < |s| && s[r] == c && c !in s[..r]
  {
    if s[0] == c then 0 else 1 + FirstIndex(s[1..], c)
  }

  /** `s.split(sep)` in JavaScript for a one-character separator. */
  function Split(s: string, sep: char): (r: seq<string>)
    ensures |r| >= 1
    ensures forall i :: 0 <= i < |r| ==> sep !in r[i]
    ensures Join(r, [sep]) == s
    decreases |s|
  {
    if sep !in s then [s]
    else
      var i := FirstIndex(s, sep);
      assert s == s[..i] + [sep] + s[i + 1..];
      [s[..i]] + Split(s[i + 1..], sep)
  }

  /** `xs.filter(Boolean)` on strings: drops the empty ones. */
  function NonEmpty(xs: seq<string>): (r: seq<string>)
    ensures forall i :: 0 <= i < |r| ==> r[i] != "" && r[i] in xs
    ensures forall x :: x in xs && x != "" ==> x in r
  {
    if xs == [] then []
    else if xs[0] == "" then NonEmpty(xs[1..])
    else [xs[0]] + NonEmpty(xs[1..])
  }

  /** Filtering keeps the order: the kept strings of two runs are those of the
      first run followed by those of the second. */
  lemma {:induction false} NonEmptyAppend(a: seq<string>, b: seq<string>)
    ensures NonEmpty(a + b) == NonEmpty(a) + NonEmpty(b)
    decreases |a|
  {
    if a == [] {
      assert a + b == b;
    } else {
      assert (a + b)[1..] == a[1..] + b;
      NonEmptyAppend(a[1..], b);
    }
  }

  /** `s.slice(0, n)` in JavaScript, `s[:n]` in Python. */
  function Take(s: string, n: nat): (r: string)
    ensures |r| == if |s| < n then |s| else n
    ensures r == s[..|r|]
  {
    if |s| <= n then s else s[..n]
  }

  /** `s.replace(a, b)` in Python for one-character strings: every `a` becomes `b`. */
  function ReplaceChar(s: string, a: char, b: char): (r: string)
    ensures |r| == |s|
    ensures forall k :: 0 <= k < |s| ==> r[k] == if s[k] == a then b else s[k]
  {
    seq(|s|, k requires 0 <= k < |s| => if s[k] == a then b else s[k])
  }

  predicate IsDigit(c: char) {
    '0' <= c <= '9'
  }

  function DigitChar(d: nat): (c: char)
    requires d < 10
    ensures IsDigit(c)
  {
    ['0', '1', '2', '3', '4', '5', '6', '7', '8', '9'][d]
  }

  function DigitValue(c: char): (d: nat)
    requires IsDigit(c)
    ensures d < 10 && DigitChar(d) == c
  {
    (c as int - '0' as int)
  }

  /** The decimal rendering of a natural number, as `str(n)` and `String(n)` give it. */
  function NatToString(n: nat): (r: string)
    ensures r != [] && forall k :: 0 <= k < |r| ==> IsDigit(r[k])
    ensures r[0] == '0' ==> r == "0"
  {
    if n < 10 then [DigitChar(n)] else NatToString(n / 10) + [DigitChar(n % 10)]
  }

  /** The value of a string of decimal digits. */
  function DecimalValue(s: string): nat
    requires forall k :: 0 <= k < |s| ==> IsDigit(s[k])
  {
    if s == [] then 0 else 10 * DecimalValue(s[..|s| - 1]) + DigitValue(s[|s| - 1])
  }

  /** Rendering in decimal and reading the digits back gives the number again. */
  lemma {:induction false} DecimalRoundTrip(n: nat)
    ensures DecimalValue(NatToString(n)) == n
  {
    if n >= 10 {
      DecimalRoundTrip(n / 10);
      DecimalStep(n);
    }
  }

  lemma DecimalStep(n: nat)
    requires n >= 10
    ensures DecimalValue(NatToString(n)) == 10 * DecimalValue(NatToString(n / 10)) + n % 10
  {
    var r := NatToString(n);
    assert r[..|r| - 1] == NatToString(n / 10);
  }

  /** `str(n)` in Python and `String(n)` in JavaScript for an integer. */
  function IntToString(n: int): (r: string)
    ensures r != [] && (r[0] == '-' || IsDigit(r[0]))
  {
    if n < 0 then "-" + NatToString(-n) else NatToString(n)
  }
}
