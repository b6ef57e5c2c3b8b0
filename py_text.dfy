/** The few Python `str` operations the workspace-edit engine relies on:
    `splitlines(keepends=True)`, `"".join(...)`, slicing with clamping,
    `del l[a:b]` on a list, and `str(int)` for error messages. */
module PyText {

  /** The characters at which Python's `str.splitlines` ends a line. */
  predicate IsLineBreak(c: char) {
    || c == '\n' || c == '\r'
    || c == '\U{0B}' || c == '\U{0C}'
    || c == '\U{1C}' || c == '\U{1D}' || c == '\U{1E}'
    || c == '\U{85}' || c == '\U{2028}' || c == '\U{2029}'
  }

  /** No terminator occurs among the first `k` characters of `s` before the
      last one, except the '\r' of a closing "\r\n". */
  predicate NoBreakBefore(s: string, k: nat)
    requires k <= |s|
  {
    forall j :: 0 <= j < k - 1 ==>
      !IsLineBreak(s[j]) || (j == k - 2 && s[j] == '\r' && s[j + 1] == '\n')
  }

  /** Length of the first line of `s`, its terminator included
      (`"\r\n"` counts as one terminator). */
  function FirstLineLength(s: string): (k: nat)
    requires |s| > 0
    ensures 0 < k <= |s|
    ensures NoBreakBefore(s, k)
    // a line stops early only after a complete terminator
    ensures k < |s| ==> IsLineBreak(s[k - 1]) && !(s[k - 1] == '\r' && s[k] == '\n')
  {
    if |s| == 1 then 1
    else if s[0] == '\r' && s[1] == '\n' then 2
    else if IsLineBreak(s[0]) then 1
    else
      var rest := FirstLineLength(s[1..]);
      var k := 1 + rest;
      assert forall j :: 1 <= j < |s| ==> s[j] == s[1..][j - 1];
      assert NoBreakBefore(s, k) by {
        forall j | 0 <= j < k - 1
          ensures !IsLineBreak(s[j]) || (j == k - 2 && s[j] == '\r' && s[j + 1] == '\n')
        {
          if j > 0 {
            assert s[j] == s[1..][j - 1] && s[j + 1] == s[1..][j];
          }
        }
      }
      k
  }

  /** `s.splitlines(keepends=True)`. */
  function SplitLines(s: string): (lines: seq<string>)
    ensures forall i :: 0 <= i < |lines| ==> |lines[i]| > 0
    ensures s == [] <==> lines == []
    decreases |s|
  {
    if s == [] then []
    else
      var k := FirstLineLength(s);
      [s[..k]] + SplitLines(s[k..])
  }

  /** `"".join(lines)`. */
  function Join(lines: seq<string>): string {
    if lines == [] then [] else lines[0] + Join(lines[1..])
  }

  lemma {:induction false} JoinAppend(a: seq<string>, b: seq<string>)
    ensures Join(a + b) == Join(a) + Join(b)
  {
    if a != [] {
      assert (a + b)[1..] == a[1..] + b;
      JoinAppend(a[1..], b);
    } else {
      assert a + b == b;
    }
  }

  /** Joining the keep-ends split of a string gives the string back. */
  lemma {:induction false} JoinSplitLines(s: string)
    ensures Join(SplitLines(s)) == s
    decreases |s|
  {
    if s != [] {
      var k := FirstLineLength(s);
      JoinSplitLines(s[k..]);
      JoinFirstLine(s, k, SplitLines(s[k..]));
    }
  }

  /** A first line followed by lines that join to the rest joins to all. */
  lemma JoinFirstLine(s: string, k: nat, rest: seq<string>)
    requires k <= |s| && Join(rest) == s[k..]
    ensures Join([s[..k]] + rest) == s
  {
    assert ([s[..k]] + rest)[1..] == rest;
    assert s[..k] + s[k..] == s;
  }

  /** `s[:n]` for a non-negative `n`: Python clamps `n` to the length. */
  function Take(s: string, n: nat): (r: string)
    ensures |r| == if n <= |s| then n else |s|
    ensures r <= s
  {
    if n <= |s| then s[..n] else s
  }

  /** `s[n:]` for a non-negative `n`: empty once `n` passes the end. */
  function Drop(s: string, n: nat): (r: string)
    ensures Take(s, n) + r == s
  {
    if n <= |s| then s[n..] else []
  }

  /** `del l[a:b]` with `a <= |l|` and `b <= |l|`: an empty slice when `b <= a`. */
  function DeleteSlice<T>(l: seq<T>, a: nat, b: nat): (r: seq<T>)
    requires a <= |l| && b <= |l|
    ensures a < b ==> |r| == |l| - (b - a) && r[..a] == l[..a] && r[a..] == l[b..]
    ensures b <= a ==> r == l
  {
    if a < b then l[..a] + l[b..] else l
  }

  predicate AllDigits(s: string) {
    forall k :: 0 <= k < |s| ==> '0' <= s[k] <= '9'
  }

  /** The number a string of decimal digits spells, most significant
      digit first. */
  function DigitsValue(s: string): nat
    requires AllDigits(s)
  {
    if s == [] then 0
    else 10 * DigitsValue(s[..|s| - 1]) + (s[|s| - 1] as int - '0' as int)
  }

  function DigitChar(d: nat): (c: char)
    requires d < 10
    ensures '0' <= c <= '9' && c as int - '0' as int == d
  {
    ['0', '1', '2', '3', '4', '5', '6', '7', '8', '9'][d]
  }

  /** `str(n)` for a natural number: decimal digits spelling `n`, with no
      leading zero. */
  function NatToString(n: nat): (r: string)
    ensures |r| > 0 && AllDigits(r)
    ensures DigitsValue(r) == n
    ensures r[0] == '0' ==> n == 0
  {
    if n < 10 then [DigitChar(n)]
    else
      var r := NatToString(n / 10) + [DigitChar(n % 10)];
      assert r[..|r| - 1] == NatToString(n / 10);
      r
  }

  /** `str(i)` for an integer: a minus sign for a negative number, then the
      digits of its magnitude. */
  function IntToString(i: int): (r: string)
    ensures |r| > 0
    ensures (r[0] == '-') <==> i < 0
    ensures i < 0 ==> AllDigits(r[1..]) && DigitsValue(r[1..]) == -i
    ensures i >= 0 ==> AllDigits(r) && DigitsValue(r) == i
  {
    if i < 0 then "-" + NatToString(-i) else NatToString(i)
  }
}
